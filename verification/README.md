# Sugarcane advisory response classifier — Dafny model

The application sends a leaf photo to a vision model and receives a
free-text answer. `display_results` (app.py:112-161) turns that answer into
three outputs before rendering them:

- a disease name;
- an ordered list of visible symptoms;
- an ordered list of recommended actions.

It does this with one forward scan over the lines of the answer. The scan
trims each line and skips blank lines. It recognises header lines by
case-insensitive keywords, tested in a fixed priority order. It keeps a
section cursor (unset, disease, symptoms, actions) and routes every other
line by that cursor:

- the first line under the disease header that still has text once `*`,
  `#` and surrounding whitespace are removed becomes the name (a line made
  only of markers leaves the name empty, and the next line is tried);
- under the symptoms or actions header, only lines starting with `-`, `•`
  or a digit are kept, minus their leading run of marker characters.

The header tests run in a fixed order, so a line holding both "disease" and
"identification" opens the disease section even when it also holds
"symptom". A bullet right after such a line is never a symptom: it becomes
the disease name, marker included, if no name has been found yet, and is
dropped otherwise. A repeated disease header does not reopen the name: the
first name found stands for the whole answer.

When nothing at all was found, the raw answer is shown instead
(app.py:157).

The model has four modules:

- `Strings` (Strings.dfy): the Python string operations the scan uses.
  These are `split('\n')`, `strip()`, `lstrip(chars)`, `lower()`, the
  substring test `in`, and `replace(c, '')`. Each is a pure function. Most
  carry their properties in their own contract; those of `RemoveChar`
  (`replace`) are stated by three lemmas beside it, and `Contains` (`in`) is
  a plain predicate whose properties are stated by `ContainsAt`,
  `CharMissing` and `PairMissing`.
- `Classifier` (Classifier.dfy): the state and the scan.
  - The state is `Section`, `Advisory` and `ScanState`.
  - `HeaderKind` holds the header tests in priority order; `IsBullet`,
    `BulletItem` and `DiseaseName` handle the other lines.
  - `Step` is one loop iteration, and `Run` is the scan as a fold over the
    lines.
  - `Classify` is the loop as the application runs it: a method with a
    `for` loop that updates the cursor, the name and the two lists. It
    calls `HeaderKind` for the three keyword tests. It is proved equal to
    the fold.
  - `ShowRaw` is the fallback test.
- `ClassifierLemmas` (ClassifierLemmas.dfy): what the scan guarantees over
  whole line sequences.
- `ClassifierExamples` (ClassifierExamples.dfy): general one-step lemmas for
  each kind of line, and worked examples on concrete answers built from
  them.

## Model

| member | source | states |
|---|---|---|
| Strings.SplitLines | app.py:116 | `split('\n')` gives at least one piece; no piece holds a newline; joining the pieces with newlines gives back the text |
| Strings.SplitJoin | app.py:116 | the other half of the round trip: splitting newline-joined, newline-free lines gives the same lines back |
| Strings.LStrip | app.py:139 | `lstrip(chars)` returns a suffix of the input; every dropped character is in the set; the result is empty or starts outside the set |
| Strings.LStripExact | app.py:139 | when exactly the first `n` characters are in the set, `lstrip` drops exactly those `n` |
| Strings.RStrip | app.py:121 | `rstrip` returns a prefix; every dropped character is in the set; the result is empty or ends outside the set |
| Strings.Strip | app.py:121 | `strip()` is no longer than its input and has no whitespace at either end; it is empty exactly when the line is all whitespace; it introduces no new characters |
| Strings.StripSlice | app.py:121 | `strip()` keeps exactly one contiguous slice `s[i..j]` of the line, and everything cut away before `i` and from `j` on is whitespace; with Strip's own contract this fixes the result |
| Strings.StripUntouched | app.py:121 | a line with no whitespace at either end is left unchanged by `strip()` |
| Strings.LowerChar | app.py:125 | one character is lower-cased: the result is never an upper-case ASCII letter, and it is the input or that letter's lower-case form |
| Strings.Lower | app.py:125 | `lower()` keeps the length, leaves no upper-case ASCII letter, and maps each character to itself or to its lower-case letter |
| Strings.LowerAppend | app.py:125 | lower-casing works character by character: it distributes over concatenation |
| Strings.Contains | app.py:125-131 | definition of `p in s` (some position where `p` occurs); its properties are stated by ContainsAt, CharMissing and PairMissing |
| Strings.ContainsAt | app.py:125-131 | `p in s` holds whenever `s` is `a + p + b` |
| Strings.CharMissing | app.py:125-131 | `p in s` fails when one character of `p` never occurs in `s` |
| Strings.PairMissing | app.py:125-131 | `p in s` fails when two adjacent characters of `p` are never adjacent in `s` |
| Strings.RemoveChar | app.py:136 | definition of `replace(c, '')`; its properties are stated by RemoveCharCount, RemoveCharAppend and RemoveAbsent |
| Strings.RemoveCharCount | app.py:136 | `replace(c, '')` leaves no `c`, keeps the count of every other character, and never lengthens the string |
| Strings.RemoveCharAppend | app.py:136 | removing a character distributes over concatenation |
| Strings.RemoveAbsent | app.py:136 | removing a character that does not occur changes nothing |
| Classifier.HeaderKind | app.py:125-133 | definition of the three header tests in their priority order; its properties are stated by DiseaseKeyword, SymptomsKeyword, ActionsKeyword, NoKeyword and HeaderPriorityExample |
| Classifier.IsBullet | app.py:138-141 | definition of the bullet test (`-`, `•` or an ASCII digit first); its effect is stated by StepSymptom, StepAction and StepNotBullet |
| Classifier.BulletItem | app.py:138-142 | the stored item is the line minus its leading run of `-`, `•`, digits, `.` and spaces: every dropped character is a marker, and the item never starts with one |
| Classifier.Unmarked | app.py:136 | definition of `line.replace('*', '').replace('#', '')`; its properties follow from those of RemoveChar |
| Classifier.DiseaseName | app.py:135-136 | the stored name holds no `*` or `#`, has no whitespace at either end, and uses only characters of the line |
| Classifier.DiseaseNameSlice | app.py:136 | the stored name is one contiguous slice of the line with its `*` and `#` deleted, and only whitespace is cut away before and after it: nothing else is dropped |
| Classifier.Step | app.py:121-142 | definition of one loop iteration; what it may change is stated by StepEffects, and each case by StepHeader, StepName, StepNameKept, StepSymptom, StepAction, StepNotBullet and BlankLineNoop |
| Classifier.StepEffects | app.py:121-142 | one line: a header line reaches no output and moves the cursor only to its own section; the name is written only while empty and in the disease section; each list grows by at most the cleaned line, only in its own section |
| Classifier.Run | app.py:120-142 | definition of the scan as a fold of Step over the lines; its properties are stated by the ClassifierLemmas rows |
| Classifier.Classification | app.py:116-142 | definition of the result for a whole text (split, then Run from the empty state); its properties are stated by ClassificationFacts, EmptyText and NoHeaderShowsRaw |
| Classifier.ShowRaw | app.py:157 | definition of the fallback test (no name, no symptoms, no actions); its properties are stated by NoHeaderShowsRaw and ShowRawOnlyIfNothingYet |
| Classifier.Classify | app.py:116-142 | the loop with its mutable cursor, name and lists returns exactly the fold of `Step` over the split lines |
| ClassifierLemmas.RunAppend | app.py:120-142 | scanning `a + b` is scanning `a`, then continuing with `b` from the resulting state |
| ClassifierLemmas.BlankLineNoop | app.py:121-123 | a blank or whitespace-only line changes neither the cursor nor any output |
| ClassifierLemmas.BlankLinesIgnored | app.py:121-123 | removing all blank lines from the answer does not change the result |
| ClassifierLemmas.SectionIsLastHeader | app.py:125-133 | after a scan, the cursor is the section of the last header line, or the starting one if there was none |
| ClassifierLemmas.PreambleDropped | app.py:118 | while the cursor is unset, lines without a header leave the state exactly as it was |
| ClassifierLemmas.LeadingLinesIgnored | app.py:118-142 | lines before the first header have no effect on the result |
| ClassifierLemmas.NameSticky | app.py:135-136 | once the disease name is non-empty, no later line changes it |
| ClassifierLemmas.FirstNameWins | app.py:135-136 | the first non-header line in the disease section that yields a non-empty name is the final name, whatever follows |
| ClassifierLemmas.OutputsOnlyGrow | app.py:137-142 | the symptom and action lists are only appended to: the earlier list is a prefix of the later one |
| ClassifierLemmas.OrderKept | app.py:137-142 | items from earlier lines come before items from later lines, in both lists |
| ClassifierLemmas.ItemCountBound | app.py:120-142 | the number of items added is at most the number of non-blank lines |
| ClassifierLemmas.StepTouchesOneOutput | app.py:135-142 | one line changes at most one of name, symptoms and actions |
| ClassifierLemmas.StepWellFormed | app.py:135-142 | one step keeps the name and every item in cleaned form |
| ClassifierLemmas.RunWellFormed | app.py:120-142 | a whole scan keeps the name and every item in cleaned form |
| ClassifierLemmas.ClassificationFacts | app.py:116-142 | for any answer text: the result is in cleaned form, and its item count is at most the number of non-blank lines |
| ClassifierLemmas.EmptyText | app.py:116-142 | the empty answer yields an empty name and two empty lists |
| ClassifierLemmas.NoHeaderShowsRaw | app.py:157-158 | an answer without any header line is always shown raw |
| ClassifierLemmas.ShowRawOnlyIfNothingYet | app.py:157-158 | once anything has been found, further lines never bring back the raw view |
| ClassifierExamples.DiseaseKeyword | app.py:125-127 | a line holding both "disease" and "identification" opens the disease section, whatever else it holds |
| ClassifierExamples.SymptomsKeyword | app.py:128-130 | otherwise, a line holding "symptom" opens the symptoms section |
| ClassifierExamples.ActionsKeyword | app.py:131-133 | otherwise, a line holding "action", "treatment" or "recommend" opens the actions section |
| ClassifierExamples.DiseaseIdentificationKeywords | app.py:125 | a lower-cased line starting with "disease identification" holds both disease keywords, whatever follows |
| ClassifierExamples.DiseaseHeaderPrefix | app.py:125-127 | any line that starts with "Disease Identification" opens the disease section, whatever follows |
| ClassifierExamples.NoKeyword | app.py:125-133 | a line matching none of the tests is not a header |
| ClassifierExamples.StepHeader | app.py:125-133 | a header line only moves the cursor |
| ClassifierExamples.StepName | app.py:135-136 | in the disease section with no name yet, the cleaned line becomes the name |
| ClassifierExamples.StepNameKept | app.py:135 | with a name already set, a non-header line in the disease section changes nothing |
| ClassifierExamples.StepSymptom | app.py:137-139 | a bullet line in the symptoms section appends its item to the symptoms |
| ClassifierExamples.StepAction | app.py:140-142 | a bullet line in the actions section appends its item to the actions |
| ClassifierExamples.StepNotBullet | app.py:137-142 | a non-header line that is not a bullet is dropped in both list sections |
| ClassifierExamples.PlainName | app.py:136 | a line without `*`, `#` or surrounding whitespace is its own name |
| ClassifierExamples.EmphasisedName | app.py:136 | `**name**` yields `name` |
| ClassifierExamples.LeafScaldExample | app.py:116-142 | `["Disease Identification:", "Leaf Scald", "Symptoms:", "- yellow streaks"]` sets the name "Leaf Scald" and appends "yellow streaks" to the symptoms |
| ClassifierExamples.HeaderPriorityExample | app.py:128-133 | "Symptoms and actions" holds "action" but opens the symptoms section, because that test comes first |
| ClassifierExamples.DiseaseBeforeSymptomExample | app.py:125-136 | after "Disease Identification and Symptom notes", the bullet "- yellow streaks" becomes the disease name, marker included, and no symptom is recorded |
| ClassifierExamples.DiseaseBeforeSymptomNamedExample | app.py:125-136 | with a name already set, the same two lines leave the name and both lists unchanged: the bullet is dropped and the repeated disease header does not reopen the name |
| ClassifierExamples.NumberedItemExample | app.py:140-142 | under "Recommended Actions:", "2. Apply fungicide" is stored as "Apply fungicide" |
| ClassifierExamples.FirstDiseaseLineExample | app.py:135-136 | under "Disease Identification", "**Red Rot**" becomes the name "Red Rot" and the later "Smut" is dropped |
| ClassifierExamples.FallbackExample | app.py:157-158 | "I cannot identify this image." yields nothing and is shown raw |

## Left out

- Streamlit page setup, CSS, widgets, spinners and all rendering (app.py:13-33, 51-75, 144-161, 165-188). The model stops at the three outputs and the `ShowRaw` test; it does not produce markdown.
- `initialize_groq_client` and `analyze_image_with_groq` (app.py:37-43, 77-110). They read the environment and call a remote model. Their text result is the `text` parameter of `Classify`.
- `encode_image` (app.py:45-49). It is JPEG encoding and base64 through library calls.
- Strings.Lower: lower-cases ASCII letters only. Python's `str.lower()` also maps non-ASCII letters, some of them to two characters. The keywords are all ASCII, so this matters only for non-ASCII letters that Python would lower-case into ASCII ones.
- Classifier.IsBullet: accepts ASCII digits only. Python's `str.isdigit()` also accepts other Unicode digits, such as '٣' or '²'. The source's `lstrip` would then keep such a digit at the front of the item, so for those lines the model drops a line that the source keeps.
- Strings.Strip: the whitespace set is the fixed list of code points for which Python's `str.isspace()` holds. It is written out as a constant, not derived from Unicode tables.
- ClassifierExamples: the examples are stated for any starting state that meets their `requires` (`Start` meets all of them). They are not stated for `Start` alone.
