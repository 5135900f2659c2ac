# Number-plate table extraction and diff, modelled in Dafny

The project models the extraction-and-diff engine of `scripts/fetch_wiki_data.py`. It covers everything that
happens between "a grid of table cells, already strings, has arrived" and "here is the structured list of
changes against the stored dataset".

- **Text** (`text.dfy`): the string normalisation of `_clean_plate_name`. It covers:
  - `*` removal and `strip()`;
  - footnote-marker removal (`re.sub(r'\[注\s*\d+\]', '', …)`), modelled as a left-to-right scanner. It is characterised against an independent definition of one match of the pattern: a match at the front is deleted whole, and where no match starts the character is kept and the scan moves on by one;
  - the plate-name filter `_is_valid_plate_name`;
  - the prefecture test `_is_prefecture`, plain membership in the prefecture set.
- **Reading** (`reading.dfy`): `_generate_reading`. The name has its footnote markers removed and is trimmed. The curated override table wins; otherwise the name is transliterated katakana→hiragana character by character and lower-cased.
- **Extract** (`extract.dfy`):
  - `_extract_transport_info`: the step-by-step method `ExtractTransportInfo`, proved equal to the function `TransportInfo`, whose rules are the lemma `TransportInfoRules`.
  - `_extract_from_dataframe`: the method `ExtractFromRows`, a loop carrying `current_prefecture` and appending records, whose loop body is the method `ProcessRow`. It is proved equal to the fold `Extract`. That fold is related by lemmas to the reference definition `LastHeader`, the prefecture of the most recent header row.
- **Diff** (`diff.dfy`): `compare_data`. The method `CompareData` (two short-circuits, key sets, a loop over the common keys with an inner loop `CompareRecords` over the three columns) is proved equal to the function `Compare`. The report is structural: `Creation(count)`, or `Delta(added, removed, modified)` with keys `(地名, 都道府県)` and modifications `(key, field, before, after)`.

Whitespace (`strip()` and the regex `\s`) is `Text.IsSpace`, the exact set of characters for which `str.isspace()`
is true.

The fixed tables `PREFECTURES`, `KATAKANA_TO_HIRAGANA` and `PLATE_NAME_READINGS` have contents defined outside the
modelled file. They are passed in as the parameter `Tables(prefectures, kana, readings)`.

Cleaning is not idempotent: `"nan*"` cleans to `"nan"`, which is itself a missing-value marker and cleans to `""`
(`Text.CleanNotIdempotent`).

## Model

| member | source | states |
|---|---|---|
| Text.IsSpace | scripts/fetch_wiki_data.py:181-182 | one character of `str.isspace()` (used by `strip()` and the regex `\s`): the exact set of characters Python treats as whitespace; used by `Text.LeadingSpaces`, `Text.TrailingSpaces` and `Text.IsNoteMarker` |
| Text.IsDecimalDigit | scripts/fetch_wiki_data.py:182 | one character of the regex `\d`, on the ASCII and fullwidth digits; the rest of the class is listed under "## Left out" |
| Text.IsDigit | scripts/fetch_wiki_data.py:191 | the per-character part of `str.isdigit()`; the characters it does not cover are listed under "## Left out" |
| Text.LeadingSpaces | scripts/fetch_wiki_data.py:181-182 | the length of the whitespace prefix that `strip()` drops at the front: all spaces, followed by a non-space or the end |
| Text.TrailingSpaces | scripts/fetch_wiki_data.py:181-182 | the length of the whitespace suffix that `strip()` drops at the back: all spaces, preceded by a non-space or the start |
| Text.LeadingDecimals | scripts/fetch_wiki_data.py:182 | the length of the `\d+` run at the front: all decimal digits, followed by a non-digit or the end |
| Text.IsDigitString | scripts/fetch_wiki_data.py:191 | `str.isdigit()`: false on the empty string, otherwise true exactly when every character is a digit; used by `Text.IsValidPlateName` and `Extract.Accepted` (lines 153, 159 and 168) |
| Text.Trim | scripts/fetch_wiki_data.py:181-182 | `strip()`: the result is not longer than the input, has no whitespace at either end, and contains only characters of the input |
| Text.IsNoteMarker | scripts/fetch_wiki_data.py:182 | the independent definition of one match of `\[注\s*\d+\]`: `[注`, a run of whitespace, a non-empty run of decimal digits, then `]`; the scanner is checked against it by `Text.NoteLengthCorrect`, `Text.RemoveNotesMarker`, `Text.RemoveNotesKeep` and `Text.RemoveNotesNoMarker` |
| Text.TrimIsStrip | scripts/fetch_wiki_data.py:181-182 | `strip()` keeps the interior: the input is the result with a run of whitespace before it and a run after it; with `Trim`'s end conditions this is exactly `strip()` |
| Text.TrimTrimmed | scripts/fetch_wiki_data.py:181-182 | a string without whitespace at either end is unchanged by `strip()` |
| Text.RemoveStars | scripts/fetch_wiki_data.py:181 | `replace('*', '')`: no `*` is left, the result is not longer, contains only input characters, and is the input itself when it had no `*` |
| Text.RemoveStarsMultiset | scripts/fetch_wiki_data.py:181 | exactly the `*` characters are deleted: every other character keeps its multiplicity |
| Text.RemoveStarsAppend | scripts/fetch_wiki_data.py:181 | star removal distributes over concatenation |
| Text.NoteLength | scripts/fetch_wiki_data.py:182 | the marker length at the front of a string is 0 or between 4 and the string's length |
| Text.NoteLengthSound | scripts/fetch_wiki_data.py:182 | a positive marker length delimits a prefix that matches `\[注\s*\d+\]` |
| Text.NoteLengthComplete | scripts/fetch_wiki_data.py:182 | every prefix matching `\[注\s*\d+\]` has exactly the computed marker length |
| Text.NoteLengthCorrect | scripts/fetch_wiki_data.py:182 | a prefix of length j matches the pattern if and only if j is the computed marker length |
| Text.RemoveNotes | scripts/fetch_wiki_data.py:182 | `re.sub` of the footnote pattern: marker removal never lengthens a string; it is pinned down against `Text.IsNoteMarker` by `Text.NoteLengthCorrect`, `Text.RemoveNotesMarker` (a match at the front is deleted whole) and `Text.RemoveNotesKeep` (otherwise the character is kept), with `Text.RemoveNotesChars`, `Text.RemoveNotesNoMarker` and `Text.RemoveNotesNoBracket` as consequences |
| Text.RemoveNotesKeep | scripts/fetch_wiki_data.py:182 | where no prefix matches the pattern, the first character is kept and the scan resumes at the next character |
| Text.RemoveNotesChars | scripts/fetch_wiki_data.py:182 | marker removal only deletes: every character of the result occurs in the input |
| Text.RemoveNotesMarker | scripts/fetch_wiki_data.py:182 | a marker at the front is deleted as a whole, and scanning resumes after it |
| Text.RemoveNotesNoMarker | scripts/fetch_wiki_data.py:182 | a string in which no substring matches the pattern is unchanged |
| Text.RemoveNotesNoBracket | scripts/fetch_wiki_data.py:182 | a string without `[` is unchanged by marker removal |
| Text.Clean | scripts/fetch_wiki_data.py:175-183 | `_clean_plate_name`; its properties are stated by `Text.CleanProperties`, `Text.CleanWithoutMarkers`, `Text.CleanWithoutBracket`, `Text.CleanPlain`, `Text.CleanStarSuffix` and `Text.CleanNotIdempotent` |
| Text.CleanProperties | scripts/fetch_wiki_data.py:175-183 | `_clean_plate_name` gives "" for "", "nan" and "NaN"; every result has no `*`, no whitespace at either end, only input characters, and is never longer than the input |
| Text.CleanWithoutBracket | scripts/fetch_wiki_data.py:175-183 | a name without `[` that is not a missing-value marker cleans to its star-free form with exactly its surrounding whitespace removed, so the interior is kept |
| Text.CleanWithoutMarkers | scripts/fetch_wiki_data.py:175-183 | a name that is not a missing-value marker and whose star-free, trimmed text holds no match of the pattern cleans to its star-free form with exactly its surrounding whitespace removed |
| Text.CleanStarSuffix | scripts/fetch_wiki_data.py:175-183 | a trimmed name without `*` or `[`, followed by one `*`, cleans to the name itself |
| Text.CleanNotIdempotent | scripts/fetch_wiki_data.py:175-183 | cleaning is not idempotent: "nan*" cleans to "nan" and "NaN*" to "NaN", and each of those cleans to "" |
| Text.CleanPlain | scripts/fetch_wiki_data.py:175-183 | a name that is not a missing-value marker and has no `*`, no `[` and no surrounding whitespace is unchanged by cleaning |
| Text.IsValidPlateName | scripts/fetch_wiki_data.py:185-191 | true exactly when the name is non-empty, at most 10 characters long, and has a character that is not a digit |
| Text.IsPrefecture | scripts/fetch_wiki_data.py:193-195 | `_is_prefecture`: membership in the prefecture set; its consequences are stated by `Extract.LastHeader`, `Extract.StepWellFormed` and `Extract.RecordsWellFormed` |
| Reading.Translate | scripts/fetch_wiki_data.py:203 | `translate` with a table mapping each character to one character keeps the length and maps each position through the table |
| Reading.LowerChar | scripts/fetch_wiki_data.py:205 | `lower()` on one character, for ASCII and fullwidth Latin capitals; other case mappings are listed under "## Left out" |
| Reading.Lower | scripts/fetch_wiki_data.py:205 | `lower()` keeps the length and lower-cases each position |
| Reading.ReadingKey | scripts/fetch_wiki_data.py:200 | the lookup key of `_generate_reading`: markers removed, then trimmed; `Reading.ReadingDependsOnKey` and `Reading.ReadingOfPlainName` state its role |
| Reading.GenerateReading | scripts/fetch_wiki_data.py:197-205 | when the key (markers removed, trimmed) has an override entry, the reading is that entry; otherwise it has the key's length, and each character is the lower-cased transliteration of the key's character |
| Reading.ReadingDependsOnKey | scripts/fetch_wiki_data.py:197-205 | two names with the same key have the same reading: the result depends only on the key and the two tables |
| Reading.ReadingOfPlainName | scripts/fetch_wiki_data.py:199-205 | a trimmed, marker-free name is its own key, so its reading is its override entry, or the lower-cased transliteration of the name |
| Extract.Accepted | scripts/fetch_wiki_data.py:153 | the cell test of lines 153, 159 and 168: non-empty, not "nan", not all digits; used by `Extract.TransportInfoRules` |
| Extract.Cell | scripts/fetch_wiki_data.py:151-152 | a cell read as lines 151-152, 157-158 and 166-167 read it: the stripped cell when the row has it, otherwise nothing (""); used by `Extract.TransportInfo` and `Extract.TransportInfoRules` |
| Extract.TransportInfo | scripts/fetch_wiki_data.py:144-171 | the pair `_extract_transport_info` returns; its rules are `Extract.TransportInfoRules`, and `Extract.ExtractTransportInfo` is proved equal to it |
| Extract.TransportInfoRules | scripts/fetch_wiki_data.py:144-173 | the bureau is "", cell s, cell s+1 or the two joined by a space; the joined form occurs exactly when both cells are accepted and differ; equal accepted cells give one copy; the bureau is "" exactly when neither cell is accepted; when exactly one of the two is accepted, the bureau is that cell; the office is cell s+2 exactly when the row has it and it is accepted; a row no longer than s gives ("", "") |
| Extract.ExtractTransportInfo | scripts/fetch_wiki_data.py:144-171 | the step-by-step reassignment of bureau and office yields the pair that `TransportInfoRules` describes |
| Extract.IsHeader | scripts/fetch_wiki_data.py:107 | a header row: more than one cell, and cell 1 is a prefecture; used by `Extract.LastHeader` and `Extract.OnlyHeadersChangeState` |
| Extract.MakeRecord | scripts/fetch_wiki_data.py:111-136 | the record built from a name cell when the cleaned name is valid; stated by `Extract.MakeRecordEmits` |
| Extract.Step | scripts/fetch_wiki_data.py:107-136 | one row of the loop; stated by `Extract.StepWellFormed`, `Extract.OnlyHeadersChangeState`, `Extract.ShortHeaderEmitsNothing`, `Extract.HeaderRowEmits`, `Extract.ContinuationRowEmits` and `Extract.ShortContinuationRowEmits` |
| Extract.Run | scripts/fetch_wiki_data.py:101-142 | the records of a block of rows from a carried prefecture; stated by `Extract.RunAppend`, `Extract.RunAtMostOnePerRow` and `Extract.RunRecordsWellFormed` |
| Extract.Extract | scripts/fetch_wiki_data.py:94-142 | the records of the whole table; stated by `Extract.ExtractSnoc`, `Extract.RowContribution`, `Extract.NoHeaderNoRecords`, `Extract.AtMostOnePerRow` and `Extract.RecordsWellFormed`, and `Extract.ExtractFromRows` is proved equal to it |
| Extract.StateAfter | scripts/fetch_wiki_data.py:101-108 | the value of `current_prefecture` after a block of rows from a given start; stated by `Extract.RunAppend`, `Extract.OnlyHeadersChangeState` and `Extract.StateIsLastHeader` |
| Extract.State | scripts/fetch_wiki_data.py:97-108 | the value of `current_prefecture` after the rows of a table, starting from "" (line 97); `Extract.StateIsLastHeader` proves it is `Extract.LastHeader` and `Extract.ExtractSnoc` uses it for the state an appended row meets |
| Extract.LastHeader | scripts/fetch_wiki_data.py:97-108 | the prefecture of the most recent header row: "" when there is no header row, otherwise cell 1 of the last header row, which is in PREFECTURES |
| Extract.ProcessRow | scripts/fetch_wiki_data.py:103-136 | one row of the loop gives the new carried prefecture and the optional appended record defined by the interpretation step |
| Extract.ExtractFromRows | scripts/fetch_wiki_data.py:94-142 | the row loop returns exactly the fold of the step over the rows, starting from an empty prefecture |
| Extract.RunSuffix | scripts/fetch_wiki_data.py:96-142 | the loop invariant holds before the first row, and after the last row it means the output is the whole extraction |
| Extract.LoopStep | scripts/fetch_wiki_data.py:101-136 | processing row i and appending what it emits keeps the loop invariant |
| Extract.RunCons | scripts/fetch_wiki_data.py:101-136 | the pass over rows i.. emits row i's record, then continues from the state row i leaves |
| Extract.StepWellFormed | scripts/fetch_wiki_data.py:107-136 | one row keeps the carried prefecture "" or a prefecture, and any record it emits has a prefecture from PREFECTURES, a valid name and the generated reading |
| Extract.OnlyHeadersChangeState | scripts/fetch_wiki_data.py:107-108 | only a header row changes `current_prefecture`, and it sets it to its cell 1 |
| Extract.ShortHeaderEmitsNothing | scripts/fetch_wiki_data.py:107-110 | a header row with at most 3 cells sets the prefecture but emits nothing |
| Extract.RunAppend | scripts/fetch_wiki_data.py:101-142 | processing two row blocks in sequence is processing the first, then the second from the prefecture the first left behind |
| Extract.ExtractSnoc | scripts/fetch_wiki_data.py:101-142 | appending a row appends exactly the record it emits in the state the earlier rows left: records keep input-row order |
| Extract.StateIsLastHeader | scripts/fetch_wiki_data.py:97-108 | the carried prefecture after any prefix of the table is cell 1 of that prefix's last header row |
| Extract.RowContribution | scripts/fetch_wiki_data.py:101-136 | row i appends at most one record after those of the earlier rows; such a record comes from a row of more than one cell, carries the prefecture of the most recent header at or before row i (in PREFECTURES), has a valid name and the generated reading |
| Extract.NoHeaderNoRecords | scripts/fetch_wiki_data.py:97-124 | rows before the first header emit nothing: a table without header rows yields no records and leaves the prefecture "" |
| Extract.RunAtMostOnePerRow | scripts/fetch_wiki_data.py:101-136 | from any carried prefecture, the pass emits no more records than there are rows of more than one cell |
| Extract.AtMostOnePerRow | scripts/fetch_wiki_data.py:101-136 | the whole extraction emits no more records than there are rows of more than one cell (the per-row statement is `Extract.RowContribution`) |
| Extract.RunRecordsWellFormed | scripts/fetch_wiki_data.py:107-136 | from a carried prefecture that is "" or a prefecture, every emitted record is well formed |
| Extract.RecordsWellFormed | scripts/fetch_wiki_data.py:107-136 | every extracted record has a prefecture from PREFECTURES, a name passing `_is_valid_plate_name`, and the reading `_generate_reading` gives for that name |
| Extract.HeaderIgnoresCarriedState | scripts/fetch_wiki_data.py:107-121 | what a header row does is independent of the prefecture carried into it |
| Extract.DuplicatesKept | scripts/fetch_wiki_data.py:121 | no deduplication: a header row that emits a record emits it again when repeated |
| Extract.MakeRecordEmits | scripts/fetch_wiki_data.py:111-121 | a name cell that cleans to a valid name yields the record of that name, the given prefecture, the transport info from the given start, and the generated reading |
| Extract.HeaderRowEmits | scripts/fetch_wiki_data.py:107-121 | a header row whose cell 3 cleans to a valid name emits it under the row's own prefecture, with bureau and office from cells 4 to 6 |
| Extract.ContinuationRowEmits | scripts/fetch_wiki_data.py:123-136 | a non-header row of five or more cells, met while a prefecture is carried, emits its cell-3 name under the carried prefecture, with bureau and office from cells 4 to 6 |
| Extract.ShortContinuationRowEmits | scripts/fetch_wiki_data.py:123-136 | a non-header row of two to four cells, met while a prefecture is carried, takes its name from cell 3 (or cell 1 when it has no cell 3), and its bureau and office from cells 2 to 4 |
| Diff.FirstIndex | scripts/fetch_wiki_data.py:286-290 | the position of the first record with the key: it has the key and no earlier record does |
| Diff.First | scripts/fetch_wiki_data.py:285-291 | `existing_row.iloc[0]` / `new_row.iloc[0]`: the record at `Diff.FirstIndex`, the first with the key; `Diff.FirstIndexAppend`, `Diff.FirstNewRecordOnly` and `Diff.FirstExistingRecordOnly` state that later duplicates are ignored |
| Diff.Keys | scripts/fetch_wiki_data.py:267-268 | `set(zip(df['地名'], df['都道府県']))`: the set of (name, prefecture) pairs of a dataset; stated by `Diff.KeysAppend` and `Diff.KeyPartition` |
| Diff.CompareRecords | scripts/fetch_wiki_data.py:292-295 | the loop over the three columns yields one modification per column whose values differ |
| Diff.FieldChanges | scripts/fetch_wiki_data.py:293-295 | the modifications of one common key, one per compared column whose values differ; `Diff.FieldChangesMember` gives its membership and `Diff.CompareRecords` is proved equal to it |
| Diff.Modifications | scripts/fetch_wiki_data.py:284-295 | the reference set of modification lines for a set of common keys, each comparing the first record on each side; stated by `Diff.ModificationsMember`, `Diff.ModificationsInsert`, `Diff.ModificationsCharacterized` and `Diff.OneModificationPerField`, and built by the loop of `Diff.CompareData` |
| Diff.ModificationsMember | scripts/fetch_wiki_data.py:284-295 | a modification belongs to those of a key set exactly when its key is in the set, its field is compared, and its values are the differing values of the first records |
| Diff.FieldChangesMember | scripts/fetch_wiki_data.py:292-295 | a modification of two records exactly names a compared field, its differing old and new values, and the key |
| Diff.ModificationsInsert | scripts/fetch_wiki_data.py:284-295 | visiting one more common key adds exactly that key's field changes |
| Diff.Compare | scripts/fetch_wiki_data.py:254-299 | the flag and report of `compare_data`; stated by `Diff.CompareShortCircuits`, `Diff.ChangedIffNonEmpty`, `Diff.KeyPartition`, `Diff.ModificationsCharacterized`, `Diff.CompareSelf` and the lemmas after them, and `Diff.CompareData` is proved equal to it |
| Diff.CompareData | scripts/fetch_wiki_data.py:254-299 | the imperative differ returns exactly the flag and report of the reference comparison |
| Diff.CompareShortCircuits | scripts/fetch_wiki_data.py:256-262 | empty new data gives (false, empty report); empty stored data with non-empty new data gives (true, a creation summary carrying the new record count) |
| Diff.ChangedIffNonEmpty | scripts/fetch_wiki_data.py:297 | the flag is true exactly when the report is non-empty |
| Diff.KeyPartition | scripts/fetch_wiki_data.py:266-285 | added keys are exactly the new-only keys and removed keys the stored-only keys; added, removed and common keys are pairwise disjoint and together form the union of both key sets |
| Diff.ModificationsCharacterized | scripts/fetch_wiki_data.py:284-295 | a modification is reported exactly for a key on both sides whose first records differ in that field, with the old and the new value |
| Diff.OneModificationPerField | scripts/fetch_wiki_data.py:292-295 | at most one modification is reported per key and field |
| Diff.CompareSelf | scripts/fetch_wiki_data.py:254-297 | comparing a non-empty dataset with itself gives (false, empty report) |
| Diff.FirstIndexAppend | scripts/fetch_wiki_data.py:286-290 | appending a record does not move the first occurrence of a key already present |
| Diff.KeysAppend | scripts/fetch_wiki_data.py:266-267 | the keys of a dataset with one record appended are the old keys plus that record's key |
| Diff.FirstNewRecordOnly | scripts/fetch_wiki_data.py:286-290 | appending to the new data a record whose key it already has leaves the comparison unchanged: only first records count |
| Diff.FirstExistingRecordOnly | scripts/fetch_wiki_data.py:286-290 | the same for the stored data |
| Diff.SingleReadingChange | scripts/fetch_wiki_data.py:284-297 | one record per side with the same key, differing only in the reading, gives (true, exactly one modification of 読み仮名 with the old and new reading) |
| Diff.SingleAddition | scripts/fetch_wiki_data.py:269-275 | appending a record with a new key to a non-empty dataset reports exactly that key as added, and nothing else |

## Left out

- Network, file and library plumbing: `fetch_wikipedia_data`, `get_page_info`, `load_existing_csv`, `save_updated_csv`, `save_changes_summary`, `set_github_output` and `main`. These are HTTP, temporary files, `pd.read_html`, CSV persistence, environment variables and the clock. The model starts from rows of string cells and from datasets as sequences of records.
- Table contents: `PREFECTURES`, `KATAKANA_TO_HIRAGANA` and `PLATE_NAME_READINGS` are defined in modules that are not part of this model, so they are a parameter.
- Value conversions: pandas turns NaN cells into "" and other cells into `str(val)` (line 104), and `compare_data` compares `str()` renderings (line 294). Cells and fields are taken to be plain strings already.
- Exception handlers (lines 102 and 138-140, and 146 and 172-173): the modelled functions are total, so these paths are not modelled.
- Output wording and order: `print` logging and the Japanese report lines (lines 261, 274-295) are replaced by the structural `Report`. Added and removed keys and modifications are sets, because the source iterates over Python sets whose order is unspecified. The per-key column order of the modification lines is therefore not kept.
- Text.IsDecimalDigit: the regex `\d` matches every Unicode decimal digit. The model covers ASCII and fullwidth digits only.
- Text.IsDigit: `str.isdigit()` is modelled as those decimal digits plus the superscript, subscript, circled, parenthesised and digit-full-stop (U+2488–2490) digits. Other digit characters, such as digits of other scripts, the double-circled digits U+24F5–24FD, U+24FF and the dingbat digits U+2776–277E, are not covered.
- Reading.LowerChar: `lower()` is modelled on ASCII and fullwidth Latin capitals only. Case mappings of other scripts, including mappings that change the length of a string, are not covered.
- Reading.Translate: the transliteration table maps one character to one character. `str.translate` also allows deletions and multi-character replacements, which the katakana table is assumed not to use.
- Text.IsPrefecture: `_is_prefecture` is plain membership in the prefecture set and has no contract of its own. Its effect appears in `Extract.LastHeader`, `Extract.StepWellFormed` and `Extract.RecordsWellFormed`.
- Text.Clean and Extract.TransportInfo: the functions carry no `ensures`. Their properties are stated by lemmas: `Text.CleanProperties`, `Text.CleanWithoutMarkers`, `Text.CleanWithoutBracket`, `Text.CleanPlain` and `Text.CleanStarSuffix` for cleaning, and `Extract.TransportInfoRules` for the transport cells. No lemma describes the interior of a cleaned name whose trimmed, star-free text still contains a footnote marker; that case follows from the `Trim` and `RemoveNotes` lemmas.
