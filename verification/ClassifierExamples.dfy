/** Worked examples of the scan on concrete responses. Each line's facts
    (lower-case form, which keywords it holds) are proved in lemmas of their
    own, one step of the scan per line is proved from them and from
    `StripUntouched`, and the examples chain the steps. The examples start from any state that
    meets their `requires`, `Start` among them. */
module ClassifierExamples {
  import opened Strings
  import opened Classifier
  import opened ClassifierLemmas

  // ------------------------------------------------- header tests, in general

  /** Both disease keywords make a line a disease header, whatever else it holds. */
  lemma DiseaseKeyword(line: string, low: string)
    requires Lower(line) == low
    requires Contains(low, "disease") && Contains(low, "identification")
    ensures HeaderKind(line) == Some(DiseaseSection)
  {
  }

  /** Otherwise "symptom" makes a line a symptoms header. */
  lemma SymptomsKeyword(line: string, low: string)
    requires Lower(line) == low
    requires !Contains(low, "disease") || !Contains(low, "identification")
    requires Contains(low, "symptom")
    ensures HeaderKind(line) == Some(SymptomsSection)
  {
  }

  /** Otherwise any of "action", "treatment" or "recommend" makes it an
      actions header. */
  lemma ActionsKeyword(line: string, low: string)
    requires Lower(line) == low
    requires !Contains(low, "disease") || !Contains(low, "identification")
    requires !Contains(low, "symptom")
    requires Contains(low, "action") || Contains(low, "treatment") || Contains(low, "recommend")
    ensures HeaderKind(line) == Some(ActionsSection)
  {
  }

  /** A line matching none of the tests is no header. */
  lemma NoKeyword(line: string, low: string)
    requires Lower(line) == low
    requires !Contains(low, "disease") || !Contains(low, "identification")
    requires !Contains(low, "symptom")
    requires !Contains(low, "action") && !Contains(low, "treatment") && !Contains(low, "recommend")
    ensures HeaderKind(line) == None
  {
  }

  // ------------------------------------------------------------ one line each

  lemma DiseaseHeaderColonLower()
    ensures Lower("Disease Identification:") == "disease identification:"
  {
  }

  /** A lower-cased line that starts with "disease identification" holds
      both disease keywords. */
  lemma DiseaseIdentificationKeywords(low: string, tail: string)
    requires low == "disease identification" + tail
    ensures Contains(low, "disease")
    ensures Contains(low, "identification")
  {
    assert low == "" + "disease" + (" identification" + tail);
    ContainsAt(low, "", "disease", " identification" + tail);
    assert low == "disease " + "identification" + tail;
    ContainsAt(low, "disease ", "identification", tail);
  }

  lemma DiseaseHeaderColon()
    ensures HeaderKind("Disease Identification:") == Some(DiseaseSection)
  {
    DiseaseHeaderColonLower();
    DiseaseIdentificationKeywords("disease identification:", ":");
    DiseaseKeyword("Disease Identification:", "disease identification:");
  }

  lemma DiseaseHeaderBareLower()
    ensures Lower("Disease Identification") == "disease identification"
  {
  }

  lemma DiseaseHeaderBare()
    ensures HeaderKind("Disease Identification") == Some(DiseaseSection)
  {
    DiseaseHeaderBareLower();
    DiseaseIdentificationKeywords("disease identification", "");
    DiseaseKeyword("Disease Identification", "disease identification");
  }

  /** A line that starts with "Disease Identification" is a disease header,
      whatever follows. */
  lemma DiseaseHeaderPrefix(line: string, tail: string)
    requires line == "Disease Identification" + tail
    ensures HeaderKind(line) == Some(DiseaseSection)
  {
    LowerAppend("Disease Identification", tail);
    DiseaseHeaderBareLower();
    DiseaseIdentificationKeywords(Lower(line), Lower(tail));
    DiseaseKeyword(line, Lower(line));
  }

  lemma DiseaseNotesHeader()
    ensures HeaderKind("Disease Identification and Symptom notes") == Some(DiseaseSection)
  {
    var line := "Disease Identification and Symptom notes";
    assert line == line[..22] + line[22..];
    assert line[..22] == "Disease Identification";
    DiseaseHeaderPrefix(line, line[22..]);
  }

  lemma SymptomsHeaderLower()
    ensures Lower("Symptoms:") == "symptoms:"
  {
  }

  lemma SymptomsHeaderKeywords()
    ensures Contains("symptoms:", "symptom")
    ensures !Contains("symptoms:", "disease")
  {
    ContainsAt("symptoms:", "", "symptom", "s:");
    CharMissing("symptoms:", "disease", 0);
  }

  lemma SymptomsHeader()
    ensures HeaderKind("Symptoms:") == Some(SymptomsSection)
  {
    SymptomsHeaderLower();
    SymptomsHeaderKeywords();
    SymptomsKeyword("Symptoms:", "symptoms:");
  }

  lemma ActionsHeaderLower()
    ensures Lower("Recommended Actions:") == "recommended actions:"
  {
  }

  lemma ActionsHeaderKeywords()
    ensures Contains("recommended actions:", "action")
    ensures !Contains("recommended actions:", "disease")
    ensures !Contains("recommended actions:", "symptom")
  {
    ContainsAt("recommended actions:", "recommended ", "action", "s:");
    ActionsHeaderNotDisease();
    CharMissing("recommended actions:", "symptom", 1);
  }

  /** Every letter of "disease" occurs in this line, but "se" never does. */
  lemma ActionsHeaderNotDisease()
    ensures !Contains("recommended actions:", "disease")
  {
    PairMissing("recommended actions:", "disease", 2);
  }

  lemma ActionsHeader()
    ensures HeaderKind("Recommended Actions:") == Some(ActionsSection)
  {
    ActionsHeaderLower();
    ActionsHeaderKeywords();
    ActionsKeyword("Recommended Actions:", "recommended actions:");
  }

  lemma LeafScaldLineLower()
    ensures Lower("Leaf Scald") == "leaf scald"
  {
  }

  lemma LeafScaldLineKeywords()
    ensures !Contains("leaf scald", "disease")
    ensures !Contains("leaf scald", "symptom")
    ensures !Contains("leaf scald", "action")
    ensures !Contains("leaf scald", "treatment")
    ensures !Contains("leaf scald", "recommend")
  {
    CharMissing("leaf scald", "disease", 1);
    CharMissing("leaf scald", "symptom", 1);
    CharMissing("leaf scald", "action", 4);
    CharMissing("leaf scald", "treatment", 0);
    CharMissing("leaf scald", "recommend", 0);
  }

  lemma LeafScaldLine()
    ensures HeaderKind("Leaf Scald") == None
  {
    LeafScaldLineLower();
    LeafScaldLineKeywords();
    NoKeyword("Leaf Scald", "leaf scald");
  }

  lemma YellowStreaksLineLower()
    ensures Lower("- yellow streaks") == "- yellow streaks"
  {
  }

  lemma YellowStreaksLineKeywords()
    ensures !Contains("- yellow streaks", "disease")
    ensures !Contains("- yellow streaks", "symptom")
    ensures !Contains("- yellow streaks", "action")
    ensures !Contains("- yellow streaks", "treatment")
    ensures !Contains("- yellow streaks", "recommend")
  {
    CharMissing("- yellow streaks", "disease", 0);
    CharMissing("- yellow streaks", "symptom", 3);
    CharMissing("- yellow streaks", "action", 3);
    CharMissing("- yellow streaks", "treatment", 5);
    CharMissing("- yellow streaks", "recommend", 2);
  }

  lemma YellowStreaksLine()
    ensures HeaderKind("- yellow streaks") == None
  {
    YellowStreaksLineLower();
    YellowStreaksLineKeywords();
    NoKeyword("- yellow streaks", "- yellow streaks");
  }

  lemma ApplyFungicideLineLower()
    ensures Lower("2. Apply fungicide") == "2. apply fungicide"
  {
  }

  lemma ApplyFungicideLineKeywords()
    ensures !Contains("2. apply fungicide", "disease")
    ensures !Contains("2. apply fungicide", "symptom")
    ensures !Contains("2. apply fungicide", "action")
    ensures !Contains("2. apply fungicide", "treatment")
    ensures !Contains("2. apply fungicide", "recommend")
  {
    CharMissing("2. apply fungicide", "disease", 2);
    CharMissing("2. apply fungicide", "symptom", 0);
    CharMissing("2. apply fungicide", "action", 2);
    CharMissing("2. apply fungicide", "treatment", 1);
    CharMissing("2. apply fungicide", "recommend", 0);
  }

  lemma ApplyFungicideLine()
    ensures HeaderKind("2. Apply fungicide") == None
  {
    ApplyFungicideLineLower();
    ApplyFungicideLineKeywords();
    NoKeyword("2. Apply fungicide", "2. apply fungicide");
  }

  lemma RedRotLineLower()
    ensures Lower("**Red Rot**") == "**red rot**"
  {
  }

  lemma RedRotLineKeywords()
    ensures !Contains("**red rot**", "disease")
    ensures !Contains("**red rot**", "symptom")
    ensures !Contains("**red rot**", "action")
    ensures !Contains("**red rot**", "treatment")
    ensures !Contains("**red rot**", "recommend")
  {
    CharMissing("**red rot**", "disease", 1);
    CharMissing("**red rot**", "symptom", 1);
    CharMissing("**red rot**", "action", 0);
    CharMissing("**red rot**", "treatment", 3);
    CharMissing("**red rot**", "recommend", 2);
  }

  lemma RedRotLine()
    ensures HeaderKind("**Red Rot**") == None
  {
    RedRotLineLower();
    RedRotLineKeywords();
    NoKeyword("**Red Rot**", "**red rot**");
  }

  lemma SmutLineLower()
    ensures Lower("Smut") == "smut"
  {
  }

  lemma SmutLineKeywords()
    ensures !Contains("smut", "disease")
    ensures !Contains("smut", "symptom")
    ensures !Contains("smut", "action")
    ensures !Contains("smut", "treatment")
    ensures !Contains("smut", "recommend")
  {
    CharMissing("smut", "disease", 0);
    CharMissing("smut", "symptom", 1);
    CharMissing("smut", "action", 0);
    CharMissing("smut", "treatment", 1);
    CharMissing("smut", "recommend", 0);
  }

  lemma SmutLine()
    ensures HeaderKind("Smut") == None
  {
    SmutLineLower();
    SmutLineKeywords();
    NoKeyword("Smut", "smut");
  }

  lemma CannotIdentifyLineLower()
    ensures Lower("I cannot identify this image.") == "i cannot identify this image."
  {
  }

  lemma CannotIdentifyLineKeywords()
    ensures !Contains("i cannot identify this image.", "disease")
    ensures !Contains("i cannot identify this image.", "symptom")
    ensures !Contains("i cannot identify this image.", "action")
    ensures !Contains("i cannot identify this image.", "treatment")
    ensures !Contains("i cannot identify this image.", "recommend")
  {
    CannotIdentifyLineNoPairs();
    CharMissing("i cannot identify this image.", "symptom", 3);
    CharMissing("i cannot identify this image.", "treatment", 1);
    CharMissing("i cannot identify this image.", "recommend", 0);
  }

  /** Every letter of "disease" and of "action" occurs in this line, but
      neither "di" nor "io" does. */
  lemma CannotIdentifyLineNoPairs()
    ensures !Contains("i cannot identify this image.", "disease")
    ensures !Contains("i cannot identify this image.", "action")
  {
    PairMissing("i cannot identify this image.", "disease", 0);
    PairMissing("i cannot identify this image.", "action", 3);
  }

  lemma CannotIdentifyLine()
    ensures HeaderKind("I cannot identify this image.") == None
  {
    CannotIdentifyLineLower();
    CannotIdentifyLineKeywords();
    NoKeyword("I cannot identify this image.", "i cannot identify this image.");
  }

  lemma PriorityLineLower()
    ensures Lower("Symptoms and actions") == "symptoms and actions"
  {
  }

  lemma PriorityLineKeywords()
    ensures Contains("symptoms and actions", "symptom")
    ensures Contains("symptoms and actions", "action")
    ensures !Contains("symptoms and actions", "disease")
  {
    PriorityLineSymptom();
    PriorityLineAction();
    CharMissing("symptoms and actions", "disease", 3);
  }

  lemma PriorityLineSymptom()
    ensures Contains("symptoms and actions", "symptom")
  {
    ContainsAt("symptoms and actions", "", "symptom", "s and actions");
  }

  lemma PriorityLineAction()
    ensures Contains("symptoms and actions", "action")
  {
    ContainsAt("symptoms and actions", "symptoms and ", "action", "s");
  }

  lemma PriorityLine()
    ensures HeaderKind("Symptoms and actions") == Some(SymptomsSection)
  {
    PriorityLineLower();
    PriorityLineKeywords();
    SymptomsKeyword("Symptoms and actions", "symptoms and actions");
  }

  lemma YellowStreaksItem()
    ensures IsBullet("- yellow streaks")
    ensures BulletItem("- yellow streaks") == "yellow streaks"
  {
    LStripExact("- yellow streaks", BulletChars, 2);
    assert "- yellow streaks"[2..] == "yellow streaks";
  }

  lemma ApplyFungicideItem()
    ensures IsBullet("2. Apply fungicide")
    ensures BulletItem("2. Apply fungicide") == "Apply fungicide"
  {
    LStripExact("2. Apply fungicide", BulletChars, 3);
    assert "2. Apply fungicide"[3..] == "Apply fungicide";
  }

  /** A line with no '*' or '#' and no whitespace at its ends is its own name. */
  lemma PlainName(line: string)
    requires '*' !in line && '#' !in line
    requires line == [] || (line[0] !in Whitespace && line[|line| - 1] !in Whitespace)
    ensures DiseaseName(line) == line
  {
    RemoveAbsent(line, '*');
    RemoveAbsent(line, '#');
    StripUntouched(line, Whitespace);
  }

  /** Emphasis markers around a name are dropped. */
  lemma EmphasisedName(name: string)
    requires '*' !in name && '#' !in name
    requires name == [] || (name[0] !in Whitespace && name[|name| - 1] !in Whitespace)
    ensures DiseaseName("**" + name + "**") == name
  {
    RemoveCharAppend("**" + name, "**", '*');
    RemoveCharAppend("**", name, '*');
    RemoveAbsent(name, '*');
    assert RemoveChar("**", '*') == [];
    assert RemoveChar("**" + name + "**", '*') == name;
    PlainName(name);
  }

  lemma YellowStreaksName()
    ensures DiseaseName("- yellow streaks") == "- yellow streaks"
  {
    PlainName("- yellow streaks");
  }

  lemma LeafScaldName()
    ensures DiseaseName("Leaf Scald") == "Leaf Scald"
  {
    PlainName("Leaf Scald");
  }

  lemma RedRotName()
    ensures DiseaseName("**Red Rot**") == "Red Rot"
  {
    var s := "**Red Rot**";
    assert s == s[..2] + s[2..9] + s[9..];
    assert s[..2] == "**" && s[2..9] == "Red Rot" && s[9..] == "**";
    EmphasisedName("Red Rot");
  }

  // ------------------------------------------------ one step, in general

  /** A header line only moves the cursor to its own section. */
  lemma StepHeader(st: ScanState, raw: string, line: string, k: Section)
    requires Strip(raw, Whitespace) == line && HeaderKind(line) == Some(k)
    ensures Step(st, raw) == st.(section := k)
  {
    assert line != [];
  }

  /** In the disease section, while the name is empty, the cleaned line becomes the name. */
  lemma StepName(st: ScanState, raw: string, line: string)
    requires st.section == DiseaseSection && st.advisory.diseaseName == []
    requires Strip(raw, Whitespace) == line && line != [] && HeaderKind(line) == None
    ensures Step(st, raw) == st.(advisory := st.advisory.(diseaseName := DiseaseName(line)))
  {
  }

  /** Once a name is set, later non-header lines in the disease section are dropped. */
  lemma StepNameKept(st: ScanState, raw: string, line: string)
    requires st.section == DiseaseSection && st.advisory.diseaseName != []
    requires Strip(raw, Whitespace) == line && HeaderKind(line) == None
    ensures Step(st, raw) == st
  {
  }

  /** A bullet line in the symptoms section appends its item to the symptoms. */
  lemma StepSymptom(st: ScanState, raw: string, line: string)
    requires st.section == SymptomsSection
    requires Strip(raw, Whitespace) == line && HeaderKind(line) == None && IsBullet(line)
    ensures Step(st, raw) == st.(advisory := st.advisory.(symptoms := st.advisory.symptoms + [BulletItem(line)]))
  {
  }

  /** A bullet line in the actions section appends its item to the actions. */
  lemma StepAction(st: ScanState, raw: string, line: string)
    requires st.section == ActionsSection
    requires Strip(raw, Whitespace) == line && HeaderKind(line) == None && IsBullet(line)
    ensures Step(st, raw) == st.(advisory := st.advisory.(actions := st.advisory.actions + [BulletItem(line)]))
  {
  }

  /** A non-bullet, non-header line in a list section is dropped. */
  lemma StepNotBullet(st: ScanState, raw: string, line: string)
    requires st.section == SymptomsSection || st.section == ActionsSection
    requires Strip(raw, Whitespace) == line && line != [] && HeaderKind(line) == None && !IsBullet(line)
    ensures Step(st, raw) == st
  {
  }

  // ------------------------------------------------------- one step per line

  lemma DiseaseHeaderStep(st: ScanState)
    ensures Step(st, "Disease Identification:") == st.(section := DiseaseSection)
  {
    DiseaseHeaderColon();
    StripUntouched("Disease Identification:", Whitespace);
    StepHeader(st, "Disease Identification:", "Disease Identification:", DiseaseSection);
  }

  lemma DiseaseHeaderBareStep(st: ScanState)
    ensures Step(st, "Disease Identification") == st.(section := DiseaseSection)
  {
    DiseaseHeaderBare();
    StripUntouched("Disease Identification", Whitespace);
    StepHeader(st, "Disease Identification", "Disease Identification", DiseaseSection);
  }

  lemma DiseaseNotesHeaderStep(st: ScanState)
    ensures Step(st, "Disease Identification and Symptom notes") == st.(section := DiseaseSection)
  {
    DiseaseNotesHeader();
    StripUntouched("Disease Identification and Symptom notes", Whitespace);
    StepHeader(st, "Disease Identification and Symptom notes", "Disease Identification and Symptom notes", DiseaseSection);
  }

  lemma SymptomsHeaderStep(st: ScanState)
    ensures Step(st, "Symptoms:") == st.(section := SymptomsSection)
  {
    SymptomsHeader();
    StripUntouched("Symptoms:", Whitespace);
    StepHeader(st, "Symptoms:", "Symptoms:", SymptomsSection);
  }

  lemma ActionsHeaderStep(st: ScanState)
    ensures Step(st, "Recommended Actions:") == st.(section := ActionsSection)
  {
    ActionsHeader();
    StripUntouched("Recommended Actions:", Whitespace);
    StepHeader(st, "Recommended Actions:", "Recommended Actions:", ActionsSection);
  }

  lemma LeafScaldStep(st: ScanState)
    requires st.section == DiseaseSection && st.advisory.diseaseName == []
    ensures Step(st, "Leaf Scald") == st.(advisory := st.advisory.(diseaseName := "Leaf Scald"))
  {
    LeafScaldLine();
    StripUntouched("Leaf Scald", Whitespace);
    LeafScaldName();
    StepName(st, "Leaf Scald", "Leaf Scald");
  }

  lemma RedRotStep(st: ScanState)
    requires st.section == DiseaseSection && st.advisory.diseaseName == []
    ensures Step(st, "**Red Rot**") == st.(advisory := st.advisory.(diseaseName := "Red Rot"))
  {
    RedRotLine();
    StripUntouched("**Red Rot**", Whitespace);
    RedRotName();
    StepName(st, "**Red Rot**", "**Red Rot**");
  }

  lemma SmutStep(st: ScanState)
    requires st.section == DiseaseSection && st.advisory.diseaseName != []
    ensures Step(st, "Smut") == st
  {
    SmutLine();
    StripUntouched("Smut", Whitespace);
    StepNameKept(st, "Smut", "Smut");
  }

  lemma YellowStreaksNameStep(st: ScanState)
    requires st.section == DiseaseSection && st.advisory.diseaseName == []
    ensures Step(st, "- yellow streaks") == st.(advisory := st.advisory.(diseaseName := "- yellow streaks"))
  {
    YellowStreaksLine();
    StripUntouched("- yellow streaks", Whitespace);
    YellowStreaksName();
    StepName(st, "- yellow streaks", "- yellow streaks");
  }

  lemma YellowStreaksKeptStep(st: ScanState)
    requires st.section == DiseaseSection && st.advisory.diseaseName != []
    ensures Step(st, "- yellow streaks") == st
  {
    YellowStreaksLine();
    StripUntouched("- yellow streaks", Whitespace);
    StepNameKept(st, "- yellow streaks", "- yellow streaks");
  }

  lemma CannotIdentifyStep()
    ensures Step(Start, "I cannot identify this image.") == Start
  {
    CannotIdentifyLine();
    StripUntouched("I cannot identify this image.", Whitespace);
  }

  lemma YellowStreaksStep(st: ScanState)
    requires st.section == SymptomsSection
    ensures Step(st, "- yellow streaks") == st.(advisory := st.advisory.(symptoms := st.advisory.symptoms + ["yellow streaks"]))
  {
    YellowStreaksLine();
    StripUntouched("- yellow streaks", Whitespace);
    YellowStreaksItem();
    StepSymptom(st, "- yellow streaks", "- yellow streaks");
  }

  lemma ApplyFungicideStep(st: ScanState)
    requires st.section == ActionsSection
    ensures Step(st, "2. Apply fungicide") == st.(advisory := st.advisory.(actions := st.advisory.actions + ["Apply fungicide"]))
  {
    ApplyFungicideLine();
    StripUntouched("2. Apply fungicide", Whitespace);
    ApplyFungicideItem();
    StepAction(st, "2. Apply fungicide", "2. Apply fungicide");
  }

  // ------------------------------------------------------------- examples

  /** Scanning a single line is one step. */
  lemma Chain1(st: ScanState, a: string)
    ensures Run(st, [a]) == Step(st, a)
  {
    assert [a][..0] == [];
  }

  /** Two lines scanned one step after the other. */
  lemma Chain2(st: ScanState, a: string, b: string, s1: ScanState, s2: ScanState)
    requires Step(st, a) == s1 && Step(s1, b) == s2
    ensures Run(st, [a, b]) == s2
  {
    Chain1(st, a);
    Chain1(s1, b);
    RunAppend(st, [a], [b]);
    assert [a] + [b] == [a, b];
  }

  /** Three lines scanned one step after the other. */
  lemma Chain3(st: ScanState, a: string, b: string, c: string, s1: ScanState, s2: ScanState, s3: ScanState)
    requires Step(st, a) == s1 && Step(s1, b) == s2 && Step(s2, c) == s3
    ensures Run(st, [a, b, c]) == s3
  {
    Chain2(st, a, b, s1, s2);
    Chain1(s2, c);
    RunAppend(st, [a, b], [c]);
    assert [a, b] + [c] == [a, b, c];
  }

  /** Four lines scanned one step after the other. */
  lemma Chain4(st: ScanState, a: string, b: string, c: string, d: string,
               s1: ScanState, s2: ScanState, s3: ScanState, s4: ScanState)
    requires Step(st, a) == s1 && Step(s1, b) == s2 && Step(s2, c) == s3 && Step(s3, d) == s4
    ensures Run(st, [a, b, c, d]) == s4
  {
    Chain2(st, a, b, s1, s2);
    Chain2(s2, c, d, s3, s4);
    RunAppend(st, [a, b], [c, d]);
    assert [a, b] + [c, d] == [a, b, c, d];
  }

  /** A disease header, the name, a symptoms header and one bullet: from any
      state with no name yet (such as `Start`), the name is set and the
      bullet's text is appended to the symptoms. */
  lemma LeafScaldExample(st: ScanState)
    requires st.advisory.diseaseName == []
    ensures Run(st, ["Disease Identification:", "Leaf Scald", "Symptoms:", "- yellow streaks"]).advisory
            == st.advisory.(diseaseName := "Leaf Scald", symptoms := st.advisory.symptoms + ["yellow streaks"])
  {
    var s1 := st.(section := DiseaseSection);
    var s2 := s1.(advisory := s1.advisory.(diseaseName := "Leaf Scald"));
    var s3 := s2.(section := SymptomsSection);
    var s4 := s3.(advisory := s3.advisory.(symptoms := s3.advisory.symptoms + ["yellow streaks"]));
    DiseaseHeaderStep(st);
    LeafScaldStep(s1);
    SymptomsHeaderStep(s2);
    YellowStreaksStep(s3);
    Chain4(st, "Disease Identification:", "Leaf Scald", "Symptoms:", "- yellow streaks", s1, s2, s3, s4);
  }

  /** A line matching two header tests opens the section of the test that
      comes first: "symptom" is looked for before "action". */
  lemma HeaderPriorityExample()
    ensures Contains(Lower("Symptoms and actions"), "action")
    ensures HeaderKind("Symptoms and actions") == Some(SymptomsSection)
  {
    PriorityLine();
    PriorityLineLower();
    PriorityLineKeywords();
  }

  /** A header holding both disease keywords is a disease header even when it
      also says "symptom", so a bullet right after it is taken, marker and
      all, as the disease name and not as a symptom. */
  lemma DiseaseBeforeSymptomExample(st: ScanState)
    requires st.advisory.diseaseName == []
    ensures Run(st, ["Disease Identification and Symptom notes", "- yellow streaks"]).advisory
            == st.advisory.(diseaseName := "- yellow streaks")
  {
    var s1 := st.(section := DiseaseSection);
    DiseaseNotesHeaderStep(st);
    YellowStreaksNameStep(s1);
    Chain2(st, "Disease Identification and Symptom notes", "- yellow streaks", s1,
           s1.(advisory := s1.advisory.(diseaseName := "- yellow streaks")));
  }

  /** Once a name is set, the same two lines change nothing but the cursor:
      the bullet is dropped, and a repeated disease header does not reopen
      the name. */
  lemma DiseaseBeforeSymptomNamedExample(st: ScanState)
    requires st.advisory.diseaseName != []
    ensures Run(st, ["Disease Identification and Symptom notes", "- yellow streaks"]).advisory
            == st.advisory
  {
    var s1 := st.(section := DiseaseSection);
    DiseaseNotesHeaderStep(st);
    YellowStreaksKeptStep(s1);
    Chain2(st, "Disease Identification and Symptom notes", "- yellow streaks", s1, s1);
  }

  /** A numbered item loses its number, the dot and the space. */
  lemma NumberedItemExample(st: ScanState)
    ensures Run(st, ["Recommended Actions:", "2. Apply fungicide"]).advisory
            == st.advisory.(actions := st.advisory.actions + ["Apply fungicide"])
  {
    var s1 := st.(section := ActionsSection);
    ActionsHeaderStep(st);
    ApplyFungicideStep(s1);
    Chain2(st, "Recommended Actions:", "2. Apply fungicide", s1,
           s1.(advisory := s1.advisory.(actions := s1.advisory.actions + ["Apply fungicide"])));
  }

  /** Only the first line under the disease header becomes the name, with its
      markdown emphasis removed; a later line in the same section is dropped. */
  lemma FirstDiseaseLineExample(st: ScanState)
    requires st.advisory.diseaseName == []
    ensures Run(st, ["Disease Identification", "**Red Rot**", "Smut"]).advisory
            == st.advisory.(diseaseName := "Red Rot")
  {
    var s1 := st.(section := DiseaseSection);
    var s2 := s1.(advisory := s1.advisory.(diseaseName := "Red Rot"));
    DiseaseHeaderBareStep(st);
    RedRotStep(s1);
    SmutStep(s2);
    Chain3(st, "Disease Identification", "**Red Rot**", "Smut", s1, s2, s2);
  }

  /** A response with no structure at all is shown raw. */
  lemma FallbackExample()
    ensures ShowRaw(Classification("I cannot identify this image."))
  {
    SplitJoin(["I cannot identify this image."]);
    CannotIdentifyStep();
    Chain1(Start, "I cannot identify this image.");
  }
}
