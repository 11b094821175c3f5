# Element-set extractor for Abaqus mesh files, modelled in Dafny

`CDtire/extract_element_sets.py` reads an Abaqus `.inp` mesh file line by
line and writes an include file with three sections:

- the element-set names declared on `*Elset` lines;
- the surface names listed in the data lines of `*Surface,` blocks;
- every `*Surface,` block and every block opened by a line mentioning
  `embed`, verbatim.

A marker line closes each section and each block. It is two asterisks and
seventy dashes. Afterwards, every whole-word surface-side token `S1`..`S4`
in the written text is renumbered to `S3`..`S6`.

The project models this core:

- `parse_inp`, with its cursor loop and its nested `unique`;
- the layout `main` writes;
- the renumbering post-pass.

It then proves what these promise.

| file | module | models |
|---|---|---|
| `sequences.dfy` | `Sequences` | joining, slicing and membership facts about sequences that the other modules share |
| `text.dfy` | `Text` | ASCII `strip`, `lstrip`, `lower`, `startswith`, `in`, `split(',')[0]`, and the classes `\s` and `\w` |
| `unique.dfy` | `Deduplication` | `unique`: the loop as a method, the `Dedup` specification, and its meaning |
| `elset_pattern.dfy` | `ElsetPattern` | `re.search(r'elset\s*=\s*([^,]+)', line, re.I)` with `group(1).strip()` |
| `inp_scan.dfy` | `InpScan` | the cursor loop of `parse_inp` as methods, with its specification `Scan` |
| `inp_scan_properties.dfy` | `InpScanProperties` | block shape, tiling, ownership and the contents of the name lists |
| `layout.dfy` | `Layout` | the writes of `main` and the read-back of the written text |
| `substitution.dfy` | `SurfaceRenumber` | `re.sub(r'\bS[1-4]\b', replace_surface, text)` with `mapping` |
| `extract.dfy` | `ElementSets` | `main` from the lines read to the text written back |

## How the scan is specified

The cursor loop is specified by `InpScan.Scan(lines)`, the list of `Step`s
the loop takes. A step records three things:

- the kind the classification gave the line under the cursor;
- the line where the step starts;
- the line after its end: the next line that starts with `*` for a block
  (`i = j - 1` followed by `i += 1`), the next line otherwise.

The four lists are projections of that list. `ScanLines`, the cursor loop,
keeps two invariants over the steps it has taken so far: they and the steps
still ahead make up `Scan(lines)`, and its accumulators are their
projections. `ParseStep`, one pass of the loop body, keeps the second and
`AdvanceSteps` the first. `ParseInp` then applies `unique` to the two name
lists.
`InpScanProperties` then proves about `Scan` the properties of the scan
itself.

## Model

| member | source | states |
|---|---|---|
| `Deduplication.Dedup` | CDtire/extract_element_sets.py:67-74 | the result of `unique` has no repeats, holds exactly the elements of its input, and is no longer than it |
| `Deduplication.Unique` | CDtire/extract_element_sets.py:67-74 | the `seen`/`result` loop computes `Dedup` of its input |
| `Deduplication.DedupFirstOccurrenceOrder` | CDtire/extract_element_sets.py:70-73 | the kept elements appear in the order of their first occurrence in the input |
| `Deduplication.DedupOfDistinct` | CDtire/extract_element_sets.py:67-74 | a list without repeats comes back unchanged |
| `Deduplication.DedupIdempotent` | CDtire/extract_element_sets.py:67-74 | applying `unique` twice gives what applying it once gives |
| `Deduplication.DedupCharacterized` | CDtire/extract_element_sets.py:67-74 | `Dedup` is the only list that has no repeats, has the input's elements, and is in first-occurrence order |
| `Deduplication.SameOrderedElements` | CDtire/extract_element_sets.py:67-74 | two repeat-free lists with the same elements, both in first-occurrence order, are equal |
| `Deduplication.FirstIndexAppend` | CDtire/extract_element_sets.py:70-73 | appending an element does not move the first occurrence of an element already present |
| `Text.Strip` | CDtire/extract_element_sets.py:32 | `str.strip()`: the slice of the text between its leading and its trailing whitespace; `Text.StripIsTrim` characterises it |
| `Text.IsSpace` | CDtire/extract_element_sets.py:32 | the characters `strip`, `lstrip` and `\s` treat as whitespace: space, the controls tab to carriage return, and 0x1C to 0x1F |
| `Text.LStrip` | CDtire/extract_element_sets.py:45 | `str.lstrip()`: the text from its first non-whitespace character on; `InpScan.IsDirectiveAfterLStrip` relates it to the block-end test |
| `Text.Lower` | CDtire/extract_element_sets.py:33 | `str.lower()`: the same length, each character mapped by `Text.LowerChar` |
| `Text.StartsWith` | CDtire/extract_element_sets.py:36 | `low.startswith(p)`: the text is at least as long as `p` and its first characters are those of `p` |
| `Text.Contains` | CDtire/extract_element_sets.py:55 | `p in low`: `p` occurs at some position of the text |
| `Text.FirstField` | CDtire/extract_element_sets.py:47 | `split(',')[0]`: the text before the first comma, all of it when there is none; `Text.FieldEndStops` characterises where it stops |
| `Text.SkipSpacesStops` | CDtire/extract_element_sets.py:32 | leading-whitespace skipping passes over whitespace only and stops at the first non-whitespace character or at the end |
| `Text.TrimEndStops` | CDtire/extract_element_sets.py:32 | trailing-whitespace trimming passes back over whitespace only and stops after a non-whitespace character or at the start |
| `Text.SkipSpacesUnique` | CDtire/extract_element_sets.py:32 | the end of the leading whitespace is the only position with those two properties |
| `Text.TrimEndUnique` | CDtire/extract_element_sets.py:32 | the start of the trailing whitespace is the only position with those two properties |
| `Text.StripIsTrim` | CDtire/extract_element_sets.py:32 | `strip` returns the slice between the leading and the trailing whitespace; that slice is empty or starts and ends with non-whitespace |
| `Text.StripAfterSpaces` | CDtire/extract_element_sets.py:39 | whitespace in front of a text does not change its stripped form |
| `Text.StripAllSpace` | CDtire/extract_element_sets.py:48 | a text made only of whitespace strips to the empty text, so it is a false first field |
| `Text.LowerChar` | CDtire/extract_element_sets.py:33 | `lower` maps each upper-case ASCII letter to the lower-case letter at the same place in the alphabet, and keeps every other character |
| `Text.ContainsIsSubstring` | CDtire/extract_element_sets.py:55 | `'embed' in low` holds exactly when `embed` occurs at some position of `low` |
| `Text.FieldEndStops` | CDtire/extract_element_sets.py:47 | the first comma field runs up to the first comma, or to the end when there is none |
| `ElsetPattern.ElsetName` | CDtire/extract_element_sets.py:37-39 | `m.group(1).strip()` of the `re.search`, or no name when it finds no match; `ElsetPattern.ElsetNameIffMatch` and `ElsetPattern.ElsetNameIsLeftmostMatch` characterise it |
| `ElsetPattern.KeywordAtIsLower` | CDtire/extract_element_sets.py:37 | the character-by-character keyword test is the comparison of the lower-cased text with `elset` (`re.I`) |
| `ElsetPattern.GroupAt` | CDtire/extract_element_sets.py:37 | a successful attempt at `p` captures a non-empty group that starts after the keyword |
| `ElsetPattern.GroupAtGivesPattern` | CDtire/extract_element_sets.py:37 | a successful attempt is a match of the pattern whose group starts right after `=` and ends at the next comma or at the end of the line |
| `ElsetPattern.GroupAtSucceeds` | CDtire/extract_element_sets.py:37 | whenever the pattern can match at `p`, the attempt at `p` succeeds with the same `=` |
| `ElsetPattern.GroupAtIsPattern` | CDtire/extract_element_sets.py:37 | the attempt at `p` succeeds if and only if the pattern can match at `p` |
| `ElsetPattern.MatchGivesName` | CDtire/extract_element_sets.py:37-39 | the stripped group does not depend on how the blanks after `=` are shared between `\s*` and the group |
| `ElsetPattern.NoCommaBeforeGroupEnd` | CDtire/extract_element_sets.py:37 | in a match, no comma stands between `=` and the end of the group |
| `ElsetPattern.GroupAfterBlanks` | CDtire/extract_element_sets.py:37-39 | when the group ends at the next comma, stripping the text after `=` gives the stripped group |
| `ElsetPattern.FirstMatch` | CDtire/extract_element_sets.py:37 | `re.search` tries positions left to right: no attempt before the returned position succeeds, and the attempt at it does (unless it is the end) |
| `ElsetPattern.Search` | CDtire/extract_element_sets.py:37-38 | the search finds nothing exactly when no attempt at any position succeeds |
| `ElsetPattern.ElsetNameIffMatch` | CDtire/extract_element_sets.py:37-38 | an `*elset` line gives a name if and only if the pattern matches somewhere in it |
| `ElsetPattern.FirstMatchIsLeftmost` | CDtire/extract_element_sets.py:37 | the search stops at the leftmost position where an attempt succeeds |
| `ElsetPattern.ElsetNameIsLeftmostMatch` | CDtire/extract_element_sets.py:37-39 | the name is the stripped group of the leftmost match, with the group running to the next comma |
| `ElsetPattern.BlankElsetName` | CDtire/extract_element_sets.py:37-39 | `elset= ,x` gives the empty name: the blank is given back to `[^,]+` |
| `ElsetPattern.NoGroupBeforeSecondKeyword` | CDtire/extract_element_sets.py:37 | the `elset` of `*elset,` is not followed by `=`, so the search goes on past it |
| `ElsetPattern.GroupAtSecondKeyword` | CDtire/extract_element_sets.py:37 | the attempt at the attribute captures the blank between `=` and the comma |
| `InpScan.IsDirective` | CDtire/extract_element_sets.py:45 | the first non-whitespace character of the line is `*`; `InpScan.IsDirectiveAfterLStrip` proves it is `lstrip().startswith('*')` |
| `InpScan.Classify` | CDtire/extract_element_sets.py:32-55 | the branch the loop body takes for the stripped, lower-cased line: `*elset`, else `*surface,`, else `embed` anywhere, else none; `InpScanProperties.ClassifyPriority` states each case as an iff |
| `InpScan.BlockEnd` | CDtire/extract_element_sets.py:44-50 | the `j` the inner block loop stops at lies between its start and the end of the input; `InpScan.BlockEndStops` characterises it |
| `InpScan.Scan` | CDtire/extract_element_sets.py:29-64 | the iterations of the cursor loop from line 0; `InpScanProperties.StepsTile`, `InpScanProperties.OneOwner` and `InpScanProperties.StepShape` characterise them |
| `InpScan.IsDirectiveFrom` | CDtire/extract_element_sets.py:45 | a text starts with `*` after leading whitespace exactly when its first non-whitespace character is `*` |
| `InpScan.IsDirectiveAfterLStrip` | CDtire/extract_element_sets.py:45 | the test that ends a block is `lstrip().startswith('*')` |
| `InpScan.BlockEndStops` | CDtire/extract_element_sets.py:44-50 | a block's data lines are the maximal run of lines that do not start with `*`; the line after them starts with `*`, or the input ends |
| `InpScan.StepAt` | CDtire/extract_element_sets.py:31-64 | each iteration consumes at least the line under the cursor and stays inside the input, so the cursor strictly increases |
| `InpScan.Steps` | CDtire/extract_element_sets.py:31-64 | every iteration from line `i` on lies within lines `i` to the end |
| `InpScan.DataName` | CDtire/extract_element_sets.py:47-49 | a data line adds at most one surface name, and never an empty one |
| `InpScan.LineElset` | CDtire/extract_element_sets.py:37-39 | an `*elset` line adds at most one name |
| `InpScan.Spans` | CDtire/extract_element_sets.py:44-61 | the blocks of a kind come only from iterations of the pass |
| `InpScan.SpansMembers` | CDtire/extract_element_sets.py:42-61 | the blocks of a kind come from exactly the iterations of that kind |
| `InpScan.SpansOrdered` | CDtire/extract_element_sets.py:42-61 | keeping the iterations of one kind keeps their file order |
| `InpScan.Slices` | CDtire/extract_element_sets.py:43-59 | there is one block per iteration that read one |
| `InpScan.SlicesAt` | CDtire/extract_element_sets.py:43-59 | each block is the verbatim slice of lines its iteration consumed |
| `InpScan.SlicesAppend` | CDtire/extract_element_sets.py:51-61 | reading one more block appends its lines to the blocks already read |
| `InpScan.AppendStep` | CDtire/extract_element_sets.py:36-62 | one iteration appends its own contribution to each of the four lists and leaves the rest unchanged |
| `InpScan.TakeStep` | CDtire/extract_element_sets.py:52-64 | after an iteration the cursor stands on the first line after what that iteration consumed |
| `InpScan.ReadDataLine` | CDtire/extract_element_sets.py:45-50 | reading a data line keeps the end of the block where it was, appends the line to the block and its name, if any, to the names |
| `InpScan.DataNamesExtend` | CDtire/extract_element_sets.py:47-49 | reading one more data line appends its name, if it has one |
| `InpScan.ReadSurfaceBlock` | CDtire/extract_element_sets.py:43-50 | the `*surface,` branch reads the block up to the next `*` line and appends the names of its data lines |
| `InpScan.ReadEmbedBlock` | CDtire/extract_element_sets.py:56-60 | the embed branch reads the block up to the next `*` line |
| `InpScan.ParseLine` | CDtire/extract_element_sets.py:32-62 | one pass of the loop body adds exactly the contribution of the iteration at the cursor and puts the cursor on that iteration's last line |
| `InpScan.Advance` | CDtire/extract_element_sets.py:36-64 | after one pass of the loop body the four lists are the contributions of the iterations taken so far, the one just taken included |
| `InpScan.AdvanceSteps` | CDtire/extract_element_sets.py:52-64 | taking the iteration at the cursor moves it from the iterations ahead to the iterations taken |
| `InpScan.ParseStep` | CDtire/extract_element_sets.py:31-64 | one pass of the loop body, `i += 1` included, moves the cursor to the end of the iteration at the cursor and keeps the four lists equal to the contributions of the iterations taken |
| `InpScan.ScanDone` | CDtire/extract_element_sets.py:31 | when the cursor has passed the last line, the iterations taken are the whole pass |
| `InpScan.ScanLines` | CDtire/extract_element_sets.py:29-64 | the cursor loop leaves in the four lists exactly the contributions of all iterations of the pass, in file order |
| `InpScan.ParseInp` | CDtire/extract_element_sets.py:23-76 | `parse_inp` returns `unique` of the names its iterations find, and the blocks its iterations read, in file order |
| `InpScanProperties.StepsAreStepAt` | CDtire/extract_element_sets.py:31-64 | every iteration is the one the loop takes with the cursor on its first line |
| `InpScanProperties.StepsTile` | CDtire/extract_element_sets.py:31-64 | the iterations tile the input: the first starts at line 0, each starts where the previous ended, and the last ends at the end |
| `InpScanProperties.StepsOrdered` | CDtire/extract_element_sets.py:31-64 | iterations come in file order and are disjoint |
| `InpScanProperties.StepsCover` | CDtire/extract_element_sets.py:31-64 | every line is consumed by some iteration |
| `InpScanProperties.OneOwner` | CDtire/extract_element_sets.py:31-64 | every line is consumed by exactly one iteration |
| `InpScanProperties.DataLinesNotClassified` | CDtire/extract_element_sets.py:52-64 | a data line inside a block never starts an iteration of its own, so it is never classified |
| `InpScanProperties.StepShape` | CDtire/extract_element_sets.py:36-64 | an iteration's kind is the classification of its first line; a block iteration runs to the next `*` line or the end; any other iteration consumes one line |
| `InpScanProperties.StepAtShape` | CDtire/extract_element_sets.py:36-64 | the same shape for the iteration the loop would make with its cursor on a given line |
| `InpScanProperties.StarLineIsDirective` | CDtire/extract_element_sets.py:36-45 | a line whose stripped, lower-cased text starts with `*` is one the block-reading `while` stops at |
| `InpScanProperties.KeywordLineIsDirective` | CDtire/extract_element_sets.py:36-45 | an `*elset` or `*surface,` line is one the block-reading `while` stops at |
| `InpScanProperties.DirectiveStartsStep` | CDtire/extract_element_sets.py:45-64 | no block swallows a line starting with `*`: the cursor stands on every such line |
| `InpScanProperties.StepOnDirective` | CDtire/extract_element_sets.py:32-64 | on a line starting with `*` the loop makes exactly the iteration that line calls for |
| `InpScanProperties.DataNamesMembers` | CDtire/extract_element_sets.py:46-49 | the names data lines add are exactly their non-empty stripped first fields |
| `InpScanProperties.DataNamesSound` | CDtire/extract_element_sets.py:46-49 | every added name comes from one of the block's data lines |
| `InpScanProperties.DataNamesComplete` | CDtire/extract_element_sets.py:46-49 | every data line's non-empty field is added |
| `InpScanProperties.ElsetsOfMembers` | CDtire/extract_element_sets.py:36-39 | before `unique`, `elsets` holds exactly the names that the pattern finds on the `*elset` lines the cursor stood on |
| `InpScanProperties.StepNamesMembers` | CDtire/extract_element_sets.py:42-50 | one iteration adds exactly the names of the data lines of its surface block |
| `InpScanProperties.SurfNamesOfMembers` | CDtire/extract_element_sets.py:42-50 | before `unique`, `surf_names` holds exactly the names of the data lines of the surface blocks, and none is empty |
| `InpScanProperties.BlocksAreSteps` | CDtire/extract_element_sets.py:43-61 | every returned block is the lines of an iteration of its kind, and every such iteration gives a block |
| `InpScanProperties.BlocksInFileOrder` | CDtire/extract_element_sets.py:42-62 | the surface blocks, and the embed blocks, come in file order and do not overlap |
| `InpScanProperties.StepBlockShape` | CDtire/extract_element_sets.py:42-62 | a block-reading iteration's lines are its opening line and then lines that do not start with `*`; a `*` line or the end follows them |
| `InpScanProperties.BlockShape` | CDtire/extract_element_sets.py:42-62 | each returned block starts with a line of its kind and has no later line starting with `*`; it is a verbatim slice followed by a `*` line or the end |
| `InpScanProperties.SurfaceWithBlankIsNotBlock` | CDtire/extract_element_sets.py:42 | a line classified on its own never opens a surface block when its stripped, lower-cased text starts `*surface ` (as `*Surface Section` and `*Surface Interaction` do); `InpScanProperties.SurfaceWithBlankAddsNoName` states it for every such line of the input |
| `InpScanProperties.SurfaceWithBlankAddsNoName` | CDtire/extract_element_sets.py:42-52 | every input line whose stripped, lower-cased text starts `*surface ` is one the cursor stands on, inside no block, and it opens no surface block |
| `InpScanProperties.EverySurfaceLineOpensBlock` | CDtire/extract_element_sets.py:42-51 | every `*surface,` line of the input opens a surface block, which runs to the next line starting with `*` or the end |
| `InpScanProperties.ClassifyPriority` | CDtire/extract_element_sets.py:36-55 | classification tries `*elset` first, then `*surface,`, then `embed` anywhere in the line, each as an if-and-only-if |
| `InpScanProperties.ElsetsResult` | CDtire/extract_element_sets.py:36-76 | the returned element-set names have no repeats and are exactly the names found on the `*elset` lines the loop stands on; `InpScanProperties.ElsetsFromLines` states it over the lines of the input |
| `InpScanProperties.EveryElsetLineCounts` | CDtire/extract_element_sets.py:36-39 | the name the pattern finds on any `*elset` line of the input is returned |
| `InpScanProperties.CountedElsetHasLine` | CDtire/extract_element_sets.py:36-39 | every returned element-set name was found on some `*elset` line of the input |
| `InpScanProperties.ElsetsFromLines` | CDtire/extract_element_sets.py:36-76 | the returned element-set names have no repeats and are exactly the names the pattern finds on the `*elset` lines of the input |
| `InpScanProperties.SurfNamesResult` | CDtire/extract_element_sets.py:46-76 | the returned surface names have no repeats and none is empty; they are exactly the names of the data lines of surface blocks |
| `Layout.OutputLines` | CDtire/extract_element_sets.py:94-110 | the pieces `main` writes, in order; `Layout.LayoutShape` states that order |
| `Layout.Render` | CDtire/extract_element_sets.py:93-110 | the text of the output file: the pieces joined; `Layout.RenderSplits` shows it splits back into them |
| `Layout.Dashes` | CDtire/extract_element_sets.py:97 | the marker has the given number of dashes, seventy in `Separator` |
| `Layout.SeparatorIsLine` | CDtire/extract_element_sets.py:97 | the marker is one line ending with a line feed |
| `Layout.NameLines` | CDtire/extract_element_sets.py:95-101 | each name is written followed by a line feed, in order |
| `Layout.LayoutShape` | CDtire/extract_element_sets.py:94-110 | in this order: the element-set names, a marker, the surface names, a marker, then the blocks with their markers |
| `Layout.HeadShape` | CDtire/extract_element_sets.py:94-102 | the two name sections are each closed by a marker |
| `Layout.BlockLinesAt` | CDtire/extract_element_sets.py:105-110 | each block is written verbatim in its place, and a marker follows it |
| `Layout.BlockLinesSize` | CDtire/extract_element_sets.py:105-110 | the blocks take their lines plus one marker each |
| `Layout.RenderSplits` | CDtire/extract_element_sets.py:94-110 | if no name holds a line feed and every block line ends with one, the written text splits back into exactly the written pieces |
| `Layout.SeparatorJoinsUnterminatedLine` | CDtire/extract_element_sets.py:106-107 | a block whose last line has no line feed runs into the marker written after it |
| `Layout.SplitConcat` | CDtire/extract_element_sets.py:94-110 | joining lines and splitting the text again gives the lines back |
| `Layout.SplitLinesCons` | CDtire/extract_element_sets.py:94-110 | splitting a line followed by any text gives the line, then the lines of the text |
| `Layout.ConcatAppend` | CDtire/extract_element_sets.py:94-110 | writing two runs of pieces writes their texts one after the other |
| `Layout.WriteOutput` | CDtire/extract_element_sets.py:93-110 | the writes of `main` produce exactly the layout text |
| `Layout.WriteNames` | CDtire/extract_element_sets.py:95-101 | the name loop writes each name and a line feed, in order |
| `Layout.WriteBlocks` | CDtire/extract_element_sets.py:105-110 | the block loop writes each block verbatim and then a marker |
| `Layout.WriteBlock` | CDtire/extract_element_sets.py:106-107 | `writelines(block)` and then the marker |
| `Layout.Write` | CDtire/extract_element_sets.py:96 | one `out.write` appends its piece to the text |
| `SurfaceRenumber.Replacement` | CDtire/extract_element_sets.py:117-126 | `mapping.get(val, val)` with the constant `Mapping` (`S1`..`S4` to `S3`..`S6`); `SurfaceRenumber.ReplacementOfToken` gives its value on every matched token |
| `SurfaceRenumber.TokenAt` | CDtire/extract_element_sets.py:129 | `\bS[1-4]\b` matches at the position: a word boundary, `S`, a digit 1 to 4, a word boundary |
| `Text.IsWordChar` | CDtire/extract_element_sets.py:129 | the class `\w` that decides where `\b` stands: letters, digits and the underscore |
| `SurfaceRenumber.Boundary` | CDtire/extract_element_sets.py:129 | `\b` between two positions: exactly one of the characters on either side is a word character, the start and end of the text counting as non-word |
| `SurfaceRenumber.Substitute` | CDtire/extract_element_sets.py:129 | `re.sub` over the whole text; `SurfaceRenumber.SubstituteIsRenumbered` characterises it |
| `SurfaceRenumber.SubstituteFrom` | CDtire/extract_element_sets.py:129 | the scan of `re.sub` keeps the length of the text |
| `SurfaceRenumber.ReplacementOfToken` | CDtire/extract_element_sets.py:117-126 | every matched token is in `mapping`, and its replacement is `S` with the digit two higher |
| `SurfaceRenumber.SubstituteFromIsRenumbered` | CDtire/extract_element_sets.py:129 | the left-to-right scan, which resumes after each match, gives the position-by-position renumbering of the original text |
| `SurfaceRenumber.TokenStep` | CDtire/extract_element_sets.py:124-129 | at a match the scan writes the replacement and goes on after the match |
| `SurfaceRenumber.TokenChars` | CDtire/extract_element_sets.py:116-129 | at a match the scan writes `S` and the digit two higher |
| `SurfaceRenumber.RenumberAtToken` | CDtire/extract_element_sets.py:128-129 | the renumbered text at a token is `S` and the digit two higher |
| `SurfaceRenumber.PlainStep` | CDtire/extract_element_sets.py:129 | elsewhere the scan keeps the character |
| `SurfaceRenumber.SubstituteIsRenumbered` | CDtire/extract_element_sets.py:116-129 | the post-pass keeps the length, and each character is the renumbered character of the original text |
| `SurfaceRenumber.SubstituteChangesOnlyDigits` | CDtire/extract_element_sets.py:128-129 | a character changes exactly when it is the digit of a whole-word, upper-case `S1`..`S4` in the original text |
| `SurfaceRenumber.MappedTokens` | CDtire/extract_element_sets.py:116-126 | `S1`, `S2`, `S3` and `S4` on their own become `S3`, `S4`, `S5` and `S6` |
| `SurfaceRenumber.NoCascade` | CDtire/extract_element_sets.py:116-129 | `S1 S3` becomes `S3 S5`: the `S3` produced from `S1` is not renumbered again, the original `S3` is |
| `SurfaceRenumber.TwiceCascades` | CDtire/extract_element_sets.py:116-129 | running the post-pass twice would turn `S1` into `S5`, so the single pass is what prevents cascading |
| `SurfaceRenumber.NotTokens` | CDtire/extract_element_sets.py:128-129 | `s1` and `S5` are left alone: the match is case-sensitive and the digit is 1 to 4 |
| `SurfaceRenumber.NotWholeWords` | CDtire/extract_element_sets.py:128-129 | `S12`, `XS1` and `S1_` are left alone: only whole words match |
| `SurfaceRenumber.TokensBetweenPunctuation` | CDtire/extract_element_sets.py:128-129 | `-S2,S4` and a line feed become `-S4,S6` and the line feed: a dash, a comma and a line feed are word boundaries |
| `ElementSets.Output` | CDtire/extract_element_sets.py:90-110 | the text written for the input lines: the layout of `unique` of the scan's names and the scan's blocks; `ElementSets.ReadBack` states what a reader sees in it |
| `ElementSets.ExtractElementSets` | CDtire/extract_element_sets.py:90-129 | the final text is the renumbered layout of what `parse_inp` returned, and has the layout's length |
| `ElementSets.StripDropsFeed` | CDtire/extract_element_sets.py:32-49 | stripping a text whose only line feed is its last character removes that line feed |
| `ElementSets.ElsetNameNoFeed` | CDtire/extract_element_sets.py:32-39 | a name from an `*elset` line read by `readlines` holds no line feed |
| `ElementSets.DataNameNoFeed` | CDtire/extract_element_sets.py:47-49 | a name from a data line read by `readlines` holds no line feed |
| `ElementSets.ElsetsHaveNoFeed` | CDtire/extract_element_sets.py:32-39 | no element-set name found in lines read by `readlines` holds a line feed |
| `ElementSets.SurfNamesHaveNoFeed` | CDtire/extract_element_sets.py:46-49 | no surface name found in lines read by `readlines` holds a line feed |
| `ElementSets.BlocksAreLines` | CDtire/extract_element_sets.py:43-59 | every line of a block is one of the input lines, so it ends with its line feed |
| `Layout.OutputIsLines` | CDtire/extract_element_sets.py:94-110 | when no name holds a line feed and every block line ends with one, every written piece is a single line ending with a line feed |
| `ElementSets.ReadBack` | CDtire/extract_element_sets.py:87-110 | for a file whose lines all end with a line feed, the written text splits back into the names, the markers and the verbatim blocks, in order |

## Left out

- File handling in `main` (lines 79-88, 93, 113-114 and 131-134): locating the script's folder, the existence check and its message, opening, reading and writing files, and the final message. `ExtractElementSets` takes the lines `readlines` would return and gives the text written back.
- `CDtire/deflection.py` and `CDtire/od_growth.py` are not part of this model. They read solver result files and do floating-point post-processing.
- Character classes are ASCII. Python's `str.strip`, `str.lower`, `re.I` and the `\s` and `\w` of `re` on `str` also accept non-ASCII whitespace, letters and case pairs. The model treats every non-ASCII character as neither whitespace nor a word character, and leaves its case unchanged.
- `errors='replace'` decoding of the input and UTF-8 encoding of the output are not modelled. The model works on characters.
- `InpScan.DataName`: it merges `parts = lines[j].split(',')` with `if parts and parts[0].strip()`. `split` never returns an empty list, so `parts` is always true.
- `ElementSets.ExtractElementSets` takes the text read back at lines 113-114 to be exactly the text written. Reading in text mode turns `\r\n` and `\r` into `\n`. The lines `readlines` returns at line 88 already went through the same translation, so they hold no `\r`, but the model does not require that of its `lines`. For lines that contain `\r`, the program's post-pass sees `\n` where the model keeps `\r`.
- `ElementSets.ReadBack` requires that every input line ends with a line feed. `Layout.SeparatorJoinsUnterminatedLine` states what happens when the last line of the file has none and is inside a block.

## Where the code and its description differ

The model follows the code in each case.

- An embed block is opened by ANY line under the cursor whose stripped, lower-cased text contains `embed`. The line does not have to be a `*` directive. `InpScanProperties.ClassifyPriority` states this.
- A surface name is added only when the stripped first field is non-empty (lines 48-49). An element-set name is added whenever the pattern matches, even when the stripped group is empty. `ElsetPattern.BlankElsetName` shows `*elset, elset= ,x` adding the empty name.
- `re.search` does not stop at the first `elset` in the line. It uses the leftmost position where the whole pattern matches. In `*Elset, elset=A`, the keyword of `*Elset` is followed by a comma, and the name comes from the attribute.
