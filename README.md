# VALD web front end: a verified model of its request and line-merge logic

This project models, in Dafny, the decision-making core of the VALD web
front end (the Vienna Atomic Line Database). The parts modelled are:

- the multi-source spectral-line merge of `vald/extraction.py`;
- the value logic around it: the species table, the translation of a stored
  request into a job configuration, the legacy request text, form
  validation, the client-register lookup, the spam filter, request
  templates, user preferences, the `.cfg` line-list files and the age
  argument of the clean-up command;
- the C string routines of the legacy back end (`backend/parserequest.c`
  and `backend/parsemail.c`).

Every file, directory listing and database query the program reads is
given to the model as a value, as is every call into code the model
cannot see: a file's lines, a list of names, the line reader as a function
from a source list and a range to rows or an error, the SHA-256 digest,
and the text of a float.

Layout, one module per source file:

| module | models |
|---|---|
| `Wrappers` | Option and Result values, for the source's `None` and its exceptions |
| `Text` | Python's string helpers (`strip`, `split`, `lower`, `int()`, `float()`) over ASCII and Python's whitespace class |
| `Masks` | the boolean-mask selection `a[mask]` that the line container and the species lookup share |
| `Species` | `vald/species.py` |
| `LineData` | the `LineData` container of `vald/extraction.py`: one record per row |
| `Merge` | `_compute_wl_window`, `_lines_are_equivalent`, `_merge_parameters`, `_merge_lines_full` and `_merge_lines_simple` |
| `Extract` | `extract_lines` and `_parse_element_filter` |
| `Params` | the request-parameter dictionary shared by the job runner and the request writer |
| `JobRunner` | `vald/job_runner.py` |
| `Backend` | `format_request_file` and `uuid_to_6digit` of `vald/backend.py` |
| `Forms` | the `clean` rules of `vald/forms.py` |
| `Utils` | `vald/utils.py` |
| `UserPrefs` | `vald/userprefs.py` |
| `CfgFormat` | the `.cfg` format and the line loop that the two import commands share |
| `ImportDefaultConfig`, `ImportPersconf` | the two import commands |
| `CleanupOldResults` | `parse_age` and the job-directory name test |
| `CString` | `str2upper`, `str2lower` and `compress`, which both C programs carry, over NUL-terminated `array<char>` buffers |
| `ParseRequest` | `RemoveMeta`, `SetKeyword`, `GetElementNumber` and `FindNearestModel` of `backend/parserequest.c` |
| `ParseMail` | `compress`, `swallow_quotes` and `CheckClient` of `backend/parsemail.c` |

Code that works by changing state is modelled as methods that do the same:
- **The merge sweep** runs over arrays of rows and `used` flags.
- **The C routines** work in place on character arrays. `SetKeyword`
  updates the fields of a `RequestFlags` object, which stands for the C
  program's global flags.
- **Loops that build lists** (`extract_lines`, `_parse_element_filter`,
  `create_job_config`, `ShowLineForm.clean`, the register lookup, the
  template rendering and the readers) become methods with loops.

Each method is proved equal to a functional specification, and the
properties the program promises are proved about those specifications.

## Model

| member | source | states |
|---|---|---|
| Masks.TruePositions | vald/extraction.py:161-182 | the positions of the true entries of a boolean mask, each once and in ascending order |
| Masks.TruePositionsUnique | vald/extraction.py:161-182 | only one index sequence lists the true positions that way |
| Masks.Select | vald/extraction.py:161-182 | `a[mask]`: the entries at the true positions, in their order, so no more entries than before, every entry kept by the mask and nothing else |
| Species.DisplayName | vald/species.py:26-34 | the name, one blank and the stage: "I" for charge 0, the Roman numeral for charges 1 to 9, the decimal charge+1 from 10 on |
| Species.IonStage | vald/species.py:29-33 | the stage text alone, with the same three cases |
| Species.IonStageInjective | vald/species.py:29-33 | different charges never share a stage text |
| Species.ShortDigitFreeNamesAreAtoms | vald/species.py:36-40 | a name of at most two characters with no digit is not a molecule, so "CO" counts as an atom |
| Species.GetSpecies | vald/species.py:81-91 | the entry with the index, or `None` exactly when no entry has it |
| Species.GetSpeciesIsLast | vald/species.py:56-78 | the entry found is the last table row with that index, because a later row overwrites `species_dict[index]` |
| Species.DictValues | vald/species.py:56-78 | `species_dict.values()`: one value per index, each the entry `get_species` gives, covering every row |
| Species.DictValuesOrdered | vald/species.py:56-78 | the values come in the order in which their index was first inserted |
| Species.GetSpeciesName | vald/species.py:94-105 | the display name of the known entry, or "Unknown(<index>)" for an unknown index |
| Species.AllSpecies | vald/species.py:108-110 | a map from each index to its entry, holding exactly the table's indices |
| Species.FindSpeciesByName | vald/species.py:113-129 | exactly the table entries whose name equals the given one ignoring case and, when a charge is given, whose charge equals it; all charges when none is given |
| LineData.ForbidStride | vald/extraction.py:119-125 | the row stride of the string data is 0 (every flag stays ' ') or at least 191 bytes, and then byte 190 of the last row lies inside the data |
| LineData.QueryRows | vald/extraction.py:106-146 | one row per line of the query, each tagged with the same source, ranks, mergeable flag and replacement flag |
| LineData.FromQueryResult | vald/extraction.py:88-146 | the loop that fills the forbid bytes builds exactly those rows; ranks default to nine 3s |
| LineData.ApplyMask | vald/extraction.py:161-182 | exactly the rows whose mask entry is true, never more rows than before, and in their original order, so sorted input stays sorted |
| LineData.FilterBySpecies | vald/extraction.py:148-154 | an empty code list returns the rows unchanged; otherwise exactly the rows whose species is one of the codes, order kept |
| LineData.FilterByWavelength | vald/extraction.py:156-159 | exactly the rows with `lo <= wavelength <= hi`, order kept |
| LineData.ApplyMaskPrefix | vald/extraction.py:659-660 | the mask `arange(n) < m` keeps exactly the first m rows |
| LineData.Truncate | vald/extraction.py:658-660 | the result is unchanged when it has at most `max_lines` rows, and is cut to the first `max_lines` otherwise |
| LineData.TruncateKeeps | vald/extraction.py:658-660 | the cut keeps only rows it was given, and at most `max_lines` of them (none for a negative limit) |
| Merge.ComputeWlWindow | vald/extraction.py:207-219 | the window is `ref*wl/wl_ref` clamped to `[0.01 ref, 100 ref]`, so it always lies in that interval for a non-negative reference |
| Merge.WindowAtReference | vald/extraction.py:207-219 | at the reference wavelength the window is the reference window |
| Merge.WindowMonotone | vald/extraction.py:207-219 | the window never shrinks as the wavelength grows |
| Merge.WindowExamples | tests/test_extraction.py:166-184 | the four window values the test suite expects |
| Merge.LinesAreEquivalent | vald/extraction.py:222-258 | true exactly when the species agree, the source lists differ, the wavelengths are within the window, the J pair agrees unless the species is Fe I (326), and, when the first upper energy is positive, the second is within 0.1 % of it |
| Merge.EquivalenceExamples | tests/test_extraction.py:104-160 | the seven cases of the test suite |
| Merge.EquivalenceNotSymmetric | vald/extraction.py:254-256 | the energy test looks only at the first line's energy, so swapping the lines can change the answer |
| Merge.MergeParameters | vald/extraction.py:458-501 | the primary keeps its identity; loggf and each energy come from the secondary, with its rank, only on a strictly higher rank, so their rank becomes the larger |
| Merge.MergeParametersSentinels | vald/extraction.py:503-536 | the Landé pair and each gamma come from the secondary, with its rank, on a strictly higher rank or when the primary holds the sentinel and the secondary does not; otherwise they stay |
| Merge.MergeParametersIdempotent | vald/extraction.py:458-536 | merging the same secondary again changes nothing more |
| Merge.MergeKeepsEnergiesOnEqualRanks | vald/extraction.py:493-501 | with equal energy ranks on both rows the energies are never overwritten |
| Merge.Keep | vald/extraction.py:435-455 | the rows kept are exactly those neither used nor from a replacement list, in order |
| Merge.SweepGuarantees | vald/extraction.py:344-430 | for any input, every row keeps its wavelength, species, J, source, flags and ranks 0 and 8; unmergeable rows are neither changed nor used; every used row was absorbed by a mergeable row of the same species from another source, with the same J pair unless the species is 326, a compatible forbid flag when the species is below 10000, a wavelength rank at least as high and a wavelength within the pair's combined window; with uniform energy ranks no energy changes |
| Merge.ScanPreserved | vald/extraction.py:357-430 | one row's inner loop keeps every row's identity, leaves unmergeable rows alone and marks only rows that have an absorber: same species, other source, the same J pair unless the species is 326, a compatible forbid flag below species 10000, a rank at least as high, within the pair's window |
| Merge.SweepPreserved | vald/extraction.py:344-430 | the same for the whole outer loop: every row it marks has such an absorber |
| Merge.MergeSortedOutput | vald/extraction.py:432-455 | the output has at most as many rows as the input, is sorted when the input is, contains every standalone row, no replacement-list row, and only rows with an input row's identity |
| Merge.Concat | vald/extraction.py:299-316 | the concatenation holds exactly the rows of the lists |
| Merge.Permute | vald/extraction.py:321-338 | the rows taken in the order of the index sequence |
| Merge.PickPermutes | vald/extraction.py:321-338 | taking rows by an index permutation keeps every row with its multiplicity |
| Merge.InsertKeepsArgSort | vald/extraction.py:321 | inserting the next index after the smaller-or-equal keys keeps an argsort of the prefix |
| Merge.ArgSortPermutes | vald/extraction.py:320-338 | an argsort of the wavelengths yields every row once, in ascending wavelength |
| Merge.ArgSort | vald/extraction.py:321 | returns an argsort; nothing is promised about the order of equal wavelengths |
| Merge.ScanRow | vald/extraction.py:357-430 | the in-place `while k < n` loop leaves the row and `used` arrays exactly as `Scan` defines |
| Merge.MergeLinesFull | vald/extraction.py:261-455 | no list gives no rows and one list is returned unchanged; otherwise the result is the sweep over the argsorted concatenation, filtered by the keep mask, sorted, no larger than the input and holding every standalone row |
| Merge.MergeLinesSimple | vald/extraction.py:707-759 | one list comes back unchanged and no list is an error; otherwise every row of every list, nothing else, in ascending wavelength |
| Extract.PartQuery | vald/extraction.py:681-697 | an empty part gives nothing; otherwise the first token is the name |
| Extract.StageCharge | vald/extraction.py:688-697 | the charge is the integer second token minus one, and no charge when there is no second token or it is not an integer |
| Extract.StageOneIsNeutral | vald/extraction.py:689-693 | "Fe 1" asks for charge 0 |
| Extract.NonIntegerStageMatchesAnyCharge | vald/extraction.py:694-695 | "Fe x" asks for any charge |
| Extract.MatchCodesMembers | vald/extraction.py:699-701 | a code is produced for a part exactly when a table entry with that index matches the name and charge |
| Extract.MatchCodesDistinct | vald/extraction.py:699-701 | one part produces each code at most once, because the species dictionary holds each index once |
| Extract.PartCodesMembers | vald/extraction.py:679-701 | a part produces a code exactly when it is non-empty and the code's entry matches its name and stage |
| Extract.ElementFilterMembers | vald/extraction.py:665-703 | a code is in the filter's list exactly when some comma-separated part selects it |
| Extract.ElementFilterKnown | vald/extraction.py:665-703 | every code in the list belongs to a table entry |
| Extract.ElementFilterOrder | vald/extraction.py:679-701 | the codes of the first n parts come first, in part order, as `extend` appends them |
| Extract.ExtendCodes | vald/extraction.py:679-701 | the loop over the parts computes the concatenated codes of the parts |
| Extract.ParseElementFilter | vald/extraction.py:665-703 | splits at commas, strips the parts and computes exactly the codes the parts select, in part order |
| Extract.QueryRange | vald/vald3_reader.py:101-104 | an empty or inverted range raises; otherwise the reader's answer |
| Extract.SourceRanks | vald/extraction.py:610-620 | the internal ranks are wl, gf, 3, 3, Landé, rad, Stark, van der Waals and term, taken from the configuration |
| Extract.CollectStep | vald/extraction.py:626-640 | a source's rows are appended exactly when there are any |
| Extract.ContributionRows | vald/extraction.py:622-640 | every row a source contributes is tagged with its position and carries its ranks and flags, and a filter code under a filter |
| Extract.CollectTagged | vald/extraction.py:573-645 | every row of every collected list is tagged |
| Extract.ReadListsTagged | vald/extraction.py:562-645 | the same for the lists handed to the merge |
| Extract.CollectInverted | vald/extraction.py:622-645 | an inverted range collects nothing, because every read raises and is passed over |
| Extract.InvertedRangeReadsNothing | vald/extraction.py:562-645 | an inverted range reads no list at all |
| Extract.MergeSettings | vald/extraction.py:291-297 | the replacement window of each list is that of its configuration entry, by position |
| Extract.MergeKeepsProvenance | vald/extraction.py:650-656 | the merge keeps the provenance of the rows it is given |
| Extract.MergedProvenance | vald/extraction.py:648-656 | one list returned as it is and several lists merged both keep the provenance of their rows |
| Extract.ReadSource | vald/extraction.py:576-645 | one pass of the loop computes the rows the source contributes |
| Extract.ReadNext | vald/extraction.py:575-645 | one pass of the loop extends `all_lines` exactly as `Collect` does |
| Extract.ReadAll | vald/extraction.py:573-645 | the loop over the enabled lists computes `Collect` |
| Extract.ExtractLines | vald/extraction.py:539-662 | no contribution gives no rows; one list is cut to `max_lines`; several are merged and cut; an inverted range gives no rows; the result has at most `max_lines` rows, each from an enabled source and matching the filter |
| Params.Get | vald/job_runner.py:604 | `dict.get`: the stored value, or the default when the key is missing |
| Params.ToFloat | vald/job_runner.py:604-605 | `float()` of a number, or of a string that is a decimal number, and failure otherwise |
| JobRunner.NewJobConfig | vald/job_runner.py:19-65 | the given fields, thirteen flags all 0 except flag 11, no element, no stellar parameters and no queries |
| JobRunner.FormatFlag | vald/job_runner.py:621-627 | flag 0 is 3 or 4 exactly for the energy unit '1/cm', and 1 or 4 exactly for the long format |
| JobRunner.WaveUnitFlag | vald/job_runner.py:646-653 | 'nm' gives 1, '1/cm' gives 2 and anything else 0 |
| JobRunner.BuildFlags | vald/job_runner.py:618-661 | thirteen flags in flag order, one per question, flags 7 and 8 always 0 |
| JobRunner.FlagsMeaning | vald/job_runner.py:618-661 | flags 1 to 5 are the truthiness of hrad, hstark, hwaals, hlande and hterm; flag 6 is 'extended' van der Waals; flag 9 vacuum; flag 11 is 0 exactly for 'off'; flag 12 hfssplit |
| JobRunner.FlagsDetermine | vald/job_runner.py:618-661 | exactly one flag list meets that description |
| JobRunner.QueriesBounded | vald/job_runner.py:673-687 | at most one query per set, so at most five |
| JobRunner.QueriesFromSets | vald/job_runner.py:673-687 | every query comes from a set whose wavelength and window are present and parse as floats |
| JobRunner.SetsGiveQueries | vald/job_runner.py:673-687 | every such set gives a query |
| JobRunner.FirstQuery | vald/job_runner.py:673-692 | the first query is that of the first set that passes, and there is none when no set passes |
| JobRunner.CollectQueries | vald/job_runner.py:674-687 | the loop over the five sets computes those queries in index order |
| JobRunner.StellarParams | vald/job_runner.py:664-670 | depth limit, microturbulence, temperature and gravity with their defaults, failing when one is not a number |
| JobRunner.CreateJobConfig | vald/job_runner.py:581-694 | the element only for element extractions; max_lines 0 and the stellar defaults for stellar ones; the flags as above; show-line queries, the first copied into the range and element; failure exactly when a `float()` raises |
| JobRunner.WithStellar | vald/job_runner.py:663-670 | a stellar extraction gets max_lines 0 and the four stellar parameters, and fails exactly when one is not a number |
| JobRunner.WithQueries | vald/job_runner.py:672-692 | the show-line queries of the five sets, the first one copied into the range and element |
| JobRunner.ParseShowlineQueries | vald/job_runner.py:511-516 | the configuration's queries, or the single range-and-element query when there are none |
| JobRunner.RoundHalfEven | vald/job_runner.py:521-522 | Python's `round`: the nearest integer, the even one at a tie |
| JobRunner.ReadModelPoint | vald/job_runner.py:531-543 | a name gives a point only with the `.krz` suffix and integers in its first five and its seventh and eighth characters |
| JobRunner.ModelPoint | vald/job_runner.py:530-535 | a name gives a point only when its suffix is `.krz` |
| JobRunner.TargetNameReadsBack | vald/job_runner.py:523-535 | the target's own `05d`/`02d` file name reads back as the target by the loop's two `int()` slices |
| JobRunner.NearestIsUnique | vald/job_runner.py:537-541 | at most one entry is the nearest by the first-wins rule |
| JobRunner.NearestModel | vald/job_runner.py:525-549 | the name minimising `abs(dT) + 100 abs(dg)`, the first of equally near ones wins, and the target's own name when no name parses |
| JobRunner.FindModel | vald/job_runner.py:518-549 | the target is the rounded temperature and ten times the gravity, and a missing directory gives the target's name |
| JobRunner.PresInLines | vald/job_runner.py:460-478 | the five lines: range, line limit, element, the quoted configuration path (the default when empty), the flags joined by blanks |
| JobRunner.PresInFiveLines | vald/job_runner.py:460-478 | the text holds exactly those five lines when no field holds a line break, and its last line reads back as the flags |
| JobRunner.FlagsLineRoundTrip | vald/job_runner.py:477 | splitting the flag line at blanks and reading each piece as an integer gives back the flags |
| Backend.FormatRequestFile | vald/backend.py:292-392 | the loop's lines are the sections in order, and the text is them joined by newlines with one more at the end |
| Backend.HeadSection | vald/backend.py:308-327 | "begin request", the type, the configuration line and, for extractions, "via ftp" and the format line |
| Backend.UnitSection | vald/backend.py:329-343 | the unit, medium, isotopic scaling and van der Waals lines, each only when its key is present |
| Backend.FlagSection | vald/backend.py:345-357 | one line per flag that is `True` or a non-empty string, in the fixed order |
| Backend.TypeLines | vald/backend.py:359-388 | the type-specific lines |
| Backend.ShowSection | vald/backend.py:380-388 | the lines of the five show-line sets |
| Backend.RequestFraming | vald/backend.py:308-321 | the lines start with the marker, the mapped type and "<pconf> configuration" (pconf defaulting to "default"), and end with "end request" |
| Backend.TypeNames | vald/backend.py:311-317 | the four known types are renamed and an unknown one is written as it is |
| Backend.ExtractionLinesOnlyForExtractions | vald/backend.py:323-327 | "via ftp" and the format line come only with the three extraction types |
| Backend.VdwLineWhenNotDefault | vald/backend.py:341-343 | a van der Waals line is written exactly when the format is given and is not "default" |
| Backend.FlagLinesCount | vald/backend.py:345-357 | each flag adds at most one line, exactly when it is `True` or a non-empty string, in flag order |
| Backend.FlagLineContents | vald/backend.py:354-357 | a `True` flag writes its label and a string flag writes itself |
| Backend.RangeCommas | vald/backend.py:360-376 | the full extraction's range has no trailing comma, those of the element and stellar extractions end with one |
| Backend.ShowLinesCount | vald/backend.py:380-388 | the five sets give at most two lines each, and no line at all exactly when no set has both `wvl<i>` and `win<i>` |
| Backend.ShowSetLinesMeaning | vald/backend.py:381-388 | a set gives nothing exactly when `wvl<i>` or `win<i>` is missing; otherwise its first line is "wvl, win," and a second line, the element itself, is there exactly when the element is truthy |
| Backend.StellarLines | vald/backend.py:370-378 | the stellar lines, each pair only when both keys are present |
| Backend.JoinFailsOnNonText | vald/backend.py:392 | the join fails exactly when a line is a value that is not a string |
| Backend.RequestTextLines | vald/backend.py:308-392 | the text begins with "begin request", ends with "end request" and a newline, and splits back into its lines when no line holds a newline |
| Backend.TextFraming | vald/backend.py:390-392 | the same for any lines that open and close with the markers |
| Backend.UuidTo6Digit | vald/backend.py:163-184 | a number from 0 to 999999 for every ID |
| Backend.BackendIdNamesJobDir | vald/backend.py:176-184 | the same ID gives the same number, whose job directory the clean-up command considers |
| Forms.CleanRangeAccepts | vald/forms.py:69-87 | accepted exactly when an end is missing, or the range increases and is at most 50 Å wide or goes by FTP; the other two extraction forms repeat the rule |
| Forms.CleanRange | vald/forms.py:69-87 | the only errors are the inverted-range and the too-wide-range messages |
| Forms.CleanElementIon | vald/forms.py:159-171 | the stripped text, failing exactly when a second word exists and is not all digits; later words are not looked at (`clean_el0` is the same code) |
| Forms.ElementChecksAgree | vald/forms.py:360-370 | on stripped text the set check accepts exactly what the field check accepts, including the empty text and a single word |
| Forms.FirstInvalid | vald/forms.py:377-395 | the index of the first set at fault, or the number of sets |
| Forms.SetError | vald/forms.py:385-395 | the message of a faulty set starts with "Set <i>: " |
| Forms.CleanShowLine | vald/forms.py:372-400 | fails with the first faulty set's message when a set is partly filled or its element is malformed, and when no set is used; accepts otherwise |
| Forms.CleanContactEmail | vald/forms.py:460-464 | the address is accepted exactly when it contains '@' |
| Utils.HeaderNameNonEmpty | vald/utils.py:39-41 | a "#$" header line always gives a name |
| Utils.LastHeader | vald/utils.py:34-42 | the index of the last header before a line, or -1 |
| Utils.NameAfterIsNearestHeader | vald/utils.py:34-42 | the remembered name is that of the nearest preceding header, and none when no header precedes |
| Utils.FirstEntry | vald/utils.py:44-50 | the first line that lists the address |
| Utils.RegisterStep | vald/utils.py:36-50 | one line: a header replaces the name, a matching line ends the walk |
| Utils.CheckRegisterFile | vald/utils.py:24-55 | a missing file gives `None`; otherwise the walk returns the remembered name at the first matching line |
| Utils.LookupFindsNearestHeader | vald/utils.py:24-55 | a name is found exactly when a line lists the address after some header, and it is the nearest such header's |
| Utils.ValidateUserEmail | vald/utils.py:9-21 | the lowered, stripped address is valid exactly when the register gives a name for it, which comes with it |
| Utils.LowerRemoveSpace | vald/utils.py:67-79 | lower-casing and removing blanks commute |
| Utils.SpamCheck | vald/utils.py:58-82 | a message passes exactly when it has ten or more characters and, lowered with its blanks removed, contains none of the five link patterns |
| Utils.LinksAreSpam | vald/utils.py:58-82 | a link pattern anywhere, in any case and not broken by blanks, marks the message as spam |
| Utils.MessagesWithoutMarkupPass | vald/utils.py:58-82 | a message of ten or more characters with none of `=`, `[` and `:` passes |
| Utils.TemplatePath | vald/utils.py:120-134 | `<base>/requests/<type>-req.txt` for the five known types, `None` for any other |
| Utils.TemplateFileNames | vald/utils.py:120-132 | the five request types are exactly those with a template file, named `<type>-req.txt` |
| Utils.StripVariablesLeavesNone | vald/utils.py:158-159 | after the final substitution no `$` followed by a word character is left |
| Utils.DropKeyTakesComma | vald/utils.py:154-156 | a falsy value removes its placeholder and one comma after it |
| Utils.SubstituteKeyAtWordEnd | vald/utils.py:151-153 | a truthy value replaces its placeholder where a word ends and leaves a longer word alone |
| Utils.SubstituteKey | vald/utils.py:151-153 | a text without `$` is left as it is |
| Utils.DropKey | vald/utils.py:154-156 | never longer, and a text without `$` is left as it is |
| Utils.StripVariables | vald/utils.py:158-159 | the same for the final removal of every `$word` |
| Utils.RenderRequestTemplate | vald/utils.py:137-161 | each context item substituted or removed in turn, then every placeholder dropped; "" for an unknown type or missing file; no placeholder left |
| UserPrefs.KeyOf | vald/userprefs.py:10-16 | a word that is recognised is the name of the key it gives |
| UserPrefs.Set | vald/userprefs.py:40-41 | one key changes, the others stay |
| UserPrefs.ReadUserPrefsFile | vald/userprefs.py:19-46 | the defaults updated line by line; a missing file gives exactly the defaults |
| UserPrefs.IgnoredLines | vald/userprefs.py:31-41 | blank, comment, key-only and unknown-key lines change nothing |
| UserPrefs.OnlyKnownKeysChange | vald/userprefs.py:36-41 | a line that changes anything names one of the five keys and sets it to the stripped rest |
| UserPrefs.WrittenLines | vald/userprefs.py:57-62 | five "key<TAB>value" lines in fixed order, defaults for missing keys |
| UserPrefs.WrittenTextLines | vald/userprefs.py:57-62 | the text is those lines, each ended by a newline |
| UserPrefs.ApplyWrittenLine | vald/userprefs.py:36-41 | reading a written line sets its key to its value |
| UserPrefs.ReadWrittenFile | vald/userprefs.py:19-62 | reading back a written file gives every key its written value, when each value is non-empty, has no line break and no surrounding whitespace |
| CleanupOldResults.ParseFormattedAge | vald/management/commands/cleanup_old_results.py:25-55 | every count followed by a unit letter is accepted, as that many units in minutes, when that is less than 10^9 days |
| CleanupOldResults.ParseOverflowingAge | vald/management/commands/cleanup_old_results.py:45-55 | a well-formed age of 10^9 days or more is the `OverflowError` that building the `timedelta` raises |
| CleanupOldResults.TimedeltaBoundary | vald/management/commands/cleanup_old_results.py:45-55 | 999999999 days is accepted and 1000000000 days overflows; 142857142 weeks is accepted and 142857143 weeks overflows |
| CleanupOldResults.ParseLowerCaseAge | vald/management/commands/cleanup_old_results.py:38 | the unit letter may be lower case, with the same value |
| CleanupOldResults.MIsMinutes | vald/management/commands/cleanup_old_results.py:48-49 | M means minutes |
| CleanupOldResults.RejectedAges | vald/management/commands/cleanup_old_results.py:38-43 | "2", "D2" and "-1D" raise |
| CleanupOldResults.ParseAge | vald/management/commands/cleanup_old_results.py:25-55 | an accepted age is less than 10^9 days in minutes; every failure is either the `ValueError` with the full "Invalid age format: <age>. Expected format like …" message or the `OverflowError` of the `timedelta`; a text shorter than two characters is the `ValueError` |
| CleanupOldResults.JobDirsQualify | vald/management/commands/cleanup_old_results.py:194 | the zero-padded six-digit name of a backend ID below a million is a job-directory name |
| CfgFormat.GlobalPartsOfFields | vald/management/commands/import_default_config.py:159 | fields with no comma and no blank, joined by commas, split back into themselves |
| CfgFormat.GlobalLineRoundTrip | vald/management/commands/import_default_config.py:157-169 | writing one to four fields and reading the line gives them back, with the defaults for the rest |
| CfgFormat.GlobalFieldsRead | vald/management/commands/import_default_config.py:160-166 | the first field always, the others that are there, and 5000.0, 9 and 150.0 for those missing |
| CfgFormat.GlobalLineResets | vald/management/commands/import_default_config.py:167-169 | one field that does not parse resets all four to the defaults |
| CfgFormat.GlobalLineIgnores | vald/management/commands/import_default_config.py:159-166 | fields after the fourth make no difference |
| CfgFormat.ConfigGlobals | vald/management/commands/import_persconf.py:226 | the global line's values, or the defaults when there is no global line |
| CfgFormat.EntryBody | vald/management/commands/import_default_config.py:178-181 | a leading ';' disables the entry and is stripped off |
| CfgFormat.QuotedPath | vald/management/commands/import_default_config.py:188-193 | the quoted path at the start of the line and where it ends |
| CfgFormat.FindName | vald/management/commands/import_default_config.py:203-211 | the trailing quoted name and window, and the text before them |
| CfgFormat.NumberTokensOfInts | vald/management/commands/import_default_config.py:213 | integers written joined by `, ` are found by the number pattern as exactly their own texts, in order |
| CfgFormat.EntryFields | vald/management/commands/import_default_config.py:199-237 | the quoted name or the last path segment, the window after the name or 0.05, and the first thirteen numbers read as integers in the order priority, element range, mergeable, nine ranks |
| CfgFormat.NumberFields | vald/management/commands/import_default_config.py:212-237 | an entry needs at least thirteen numbers, whose first thirteen, read as integers, are priority, element range, mergeable and the nine ranks in that order; path, name, flag and window are passed through |
| CfgFormat.EntryRejects | vald/management/commands/import_default_config.py:213-237 | fewer than 13 numbers, or a non-integer among them, gives no entry; a window that is not a float raises |
| CfgFormat.EntryRestRoundTrip | vald/management/commands/import_default_config.py:199-237 | an entry written as its numbers and quoted name reads back as itself, with window 0.05 |
| CfgFormat.ReadLines | vald/management/commands/import_default_config.py:42-58 | each stripped line is passed over, taken as the global line, or parsed as an entry, and a raise ends the loop |
| CfgFormat.ReadNextLine | vald/management/commands/import_default_config.py:42-58 | one pass of the loop extends the scan by one line, and a raise is the result of the whole file |
| CfgFormat.ScanEntries | vald/management/commands/import_default_config.py:42-58 | the entries are those of every line that parses as one, in file order, and the loop fails exactly when a line raises |
| CfgFormat.GlobalFromFirstCandidate | vald/management/commands/import_default_config.py:49-53 | the global parameters come from the first line that can be the global line, and none when there is none |
| ImportDefaultConfig.EntryNeedsQuotedPath | vald/management/commands/import_default_config.py:171-193 | an entry needs a quoted path after an optional ';'; it has that path and is disabled exactly when the line starts with ';' |
| ImportDefaultConfig.EntryLineRoundTrip | vald/management/commands/import_default_config.py:171-237 | a written entry line reads back as the entry |
| ImportDefaultConfig.NonEntryLines | vald/management/commands/import_default_config.py:42-58 | passed-over lines and the global line never parse as entries |
| ImportDefaultConfig.ReadDefaultConfig | vald/management/commands/import_default_config.py:38-58 | fails exactly when one line raises; the entries of every line that parses, in order; the first candidate's global parameters |
| ImportDefaultConfig.ConfigGlobalsAsWritten | vald/management/commands/import_default_config.py:105-116 | the `.get` calls with their defaults, failing when there is no global line |
| ImportDefaultConfig.NoGlobalLineFails | vald/management/commands/import_default_config.py:39-116 | a file with no global line makes the import fail |
| ImportDefaultConfig.StoredGlobalsOfFile | vald/management/commands/import_default_config.py:39-116 | with the `.get` defaults, a file with no global line stores the defaults and otherwise the first candidate's values |
| ImportDefaultConfig.ConfigGlobalsAgree | vald/management/commands/import_default_config.py:105-116 | wherever the code succeeds it stores the corrected values |
| ImportPersconf.EntryNeedsPath | vald/management/commands/import_persconf.py:241-262 | an entry needs a body starting with a quote or '/'; its path is the quoted one or the text before the first comma |
| ImportPersconf.EntryLineRoundTrip | vald/management/commands/import_persconf.py:241-291 | a written line with a quoted path reads back as the entry |
| ImportPersconf.UnquotedLineRoundTrip | vald/management/commands/import_persconf.py:256-291 | a written line with an unquoted path reads back as the entry |
| ImportPersconf.NonEntryLines | vald/management/commands/import_persconf.py:209-224 | passed-over lines and the global line never parse as entries |
| ImportPersconf.ParseCfgFile | vald/management/commands/import_persconf.py:201-226 | the global parameters, the defaults when there is no global line, and the entries of every line that parses, failing exactly when a line raises |
| ImportPersconf.EnabledDiff | vald/management/commands/import_persconf.py:297-298 | 'enabled' or 'disabled' when the flags differ, by the entry's flag |
| ImportPersconf.RankDiffMember | vald/management/commands/import_persconf.py:300-309 | `rank_<name>` is listed exactly when that rank differs |
| ImportPersconf.RankDiffsEmpty | vald/management/commands/import_persconf.py:300-309 | no rank is listed exactly when no rank differs |
| ImportPersconf.CompareEntry | vald/management/commands/import_persconf.py:293-311 | the flag difference, then the rank differences in fixed order; empty exactly when flag and ranks agree |
| ImportPersconf.FindUserByFilename | vald/management/commands/import_persconf.py:193-199 | the first user whose name with its whitespace removed is the stem, or none |
| ImportPersconf.StemWithSpaceMatchesNone | vald/management/commands/import_persconf.py:196-197 | a stem with whitespace in it names no user |
| CString.UpperText | backend/parserequest.c:60-70 | upper-casing keeps the text's length and the bytes after the NUL, and upper-cases the text |
| CString.LowerText | backend/parserequest.c:72-82 | the same for lower case |
| CString.UpperIdempotent | backend/parserequest.c:60-70 | upper-casing twice is upper-casing once |
| CString.LowerIdempotent | backend/parserequest.c:72-82 | lower-casing twice is lower-casing once |
| CString.LowerAfterUpper | backend/parserequest.c:60-82 | lower-casing after upper-casing is lower-casing |
| CString.Str2Upper | backend/parserequest.c:60-70 | the buffer becomes its upper-cased text followed by the unchanged rest |
| CString.Str2Lower | backend/parserequest.c:72-82 | the same for lower case |
| CString.Limit | backend/parserequest.c:94 | at most `strlen(s)` characters, and at most `nn` when it is not negative |
| CString.Compress | backend/parserequest.c:84-103 | writes the compressed text and a NUL and changes nothing after it |
| CString.CompressBeforeHash | backend/parserequest.c:95-100 | compressing is keeping the kept characters before the first '#' |
| CString.KeepAllKept | backend/parserequest.c:98-99 | only letters, digits and `: . , - +` are kept |
| CString.KeepAllSubsequence | backend/parserequest.c:95-100 | what is kept is a subsequence of the text |
| CString.CompressedProperties | backend/parserequest.c:84-103 | at most the text's length and at most `nn`; a subsequence of what precedes the first '#'; only kept characters; compressing again changes nothing |
| ParseRequest.ScrubbedByLength | backend/parserequest.c:150-162 | blanking characters keeps the text's length |
| ParseRequest.ReplaceAll | backend/parserequest.c:153 | while `strchr` finds the character, the one it points at becomes a blank, until none is left |
| ParseRequest.RemoveMeta | backend/parserequest.c:150-162 | every `; & \| > < "`, newline and carriage return of the text becomes a blank, in place |
| ParseRequest.ScrubbedProperties | backend/parserequest.c:150-162 | same length, no metacharacter left, only metacharacters change and they become blanks, and scrubbing again changes nothing |
| ParseRequest.HitsExclusive | backend/parserequest.c:168-391 | no line passes two keywords' prefix tests |
| ParseRequest.RecognisedIff | backend/parserequest.c:168-391 | a line is read as a keyword exactly when it passes that keyword's test |
| ParseRequest.UnrecognisedIff | backend/parserequest.c:168-391 | a line is read as no keyword exactly when it passes no test |
| ParseRequest.SetFlagChangesOne | backend/parserequest.c:359-381 | a keyword sets its own flag to its own value (WAVEUNITANGSTROM/NM/1CM give 0/1/2, ISOTOPICSCALINGON/OFF 1/0) and no other flag |
| ParseRequest.KeywordLineEffect | backend/parserequest.c:164-394 | a keyword line changes that keyword's flag only; any other line changes no flag |
| ParseRequest.RequestFlags.constructor | backend/parserequest.c:40-58 | the flags have their initial values |
| ParseRequest.RequestFlags.SetKeyword | backend/parserequest.c:164-394 | the line comes back upper-cased, the recognised keyword's flag is set and the line emptied; at most one keyword takes effect |
| ParseRequest.RequestFlags.FormatKeywords | backend/parserequest.c:167-175 | the long and short format tests |
| ParseRequest.RequestFlags.ConfigurationKeywords | backend/parserequest.c:177-275 | the personal and default configuration tests, after which the function returns |
| ParseRequest.RequestFlags.HaveKeywords | backend/parserequest.c:277-308 | the HAVE tests |
| ParseRequest.RequestFlags.BroadeningKeywords | backend/parserequest.c:311-331 | the van der Waals, Zeeman and Stark broadening tests |
| ParseRequest.RequestFlags.RetrievalKeywords | backend/parserequest.c:333-357 | FTP retrieval, energy unit and medium tests |
| ParseRequest.RequestFlags.WaveUnitKeywords | backend/parserequest.c:359-371 | the wavelength-unit tests |
| ParseRequest.RequestFlags.ScalingKeywords | backend/parserequest.c:373-391 | the isotopic-scaling and hyperfine-splitting tests |
| ParseRequest.RequestFlags.Test | backend/parserequest.c:168-171 | one test: on a passed prefix comparison the keyword's flag is set and the line emptied |
| ParseRequest.RequestFlags.SetFlagOf | backend/parserequest.c:168-391 | the flag assignment of one keyword |
| ParseRequest.FirstMatchMeans | backend/parserequest.c:412-419 | the scan finds the first matching entry, and -1 exactly when none matches |
| ParseRequest.ElementNumberMeans | backend/parserequest.c:396-421 | an atomic number from 1 to 99 for the first entry the first two characters spell, and -1 exactly when none does |
| ParseRequest.ShortNameUnknown | backend/parserequest.c:412-420 | a name shorter than two characters is no element, so "H" needs its trailing blank |
| ParseRequest.GetElementNumber | backend/parserequest.c:396-421 | upper-cases the name, returns its element number, and on a match writes its second character back in lower case |
| ParseRequest.FindNearestModelAsWritten | backend/parserequest.c:478-525 | the code as written, with its phantom start at (-1, -1) |
| ParseRequest.PhantomHidesModel | backend/parserequest.c:497-511 | a 5000 K target with a single model at 10002 K reports no model |
| ParseRequest.BestMeans | backend/parserequest.c:499-513 | a model exactly when one parsed; it is one of them, none is closer in temperature or equally close in better gravity, and every earlier one is farther |
| ParseRequest.FindNearestModel | backend/parserequest.c:478-525 | the corrected search reports the nearest parsed model whenever there is one |
| ParseRequest.AsWrittenAgrees | backend/parserequest.c:497-511 | whenever the code as written reports a model, it is the corrected choice |
| ParseRequest.FoundAgrees | backend/parserequest.c:515-524 | the same for the reported result |
| ParseMail.Compress | backend/parsemail.c:8-27 | the compressed text of at most 80 characters, and a NUL after it |
| ParseMail.SwallowQuotes | backend/parsemail.c:53-70 | the text without its quoted parts and a NUL, returning the length; an unclosed quote gives an empty text and 0 |
| ParseMail.SwallowedSubsequence | backend/parsemail.c:53-70 | the output is a subsequence of the input |
| ParseMail.SwallowedNoQuote | backend/parsemail.c:58-63 | input with no opening quote comes out unchanged |
| ParseMail.QuoteDropped | backend/parsemail.c:58-64 | a quoted part is dropped with its quotes and the scan goes on after it |
| ParseMail.SwallowedQuoteDropped | backend/parsemail.c:53-70 | a quoted part between two unquoted texts is cut out |
| ParseMail.SwallowedUnclosed | backend/parsemail.c:66-67 | a quote left open empties the output |
| ParseMail.CopyUnquoted | backend/parsemail.c:58-65 | the loop copies the unquoted text to the front of `t`, leaves the rest of `t`, and reports a quote still open |
| ParseMail.BlankNonLetters | backend/parsemail.c:86 | every non-letter before the NUL becomes a blank |
| ParseMail.NameOfLetters | backend/parsemail.c:82-88 | a "#$" line names the client by the letters among its first 80 characters after the "#$" |
| ParseMail.LookupFinds | backend/parsemail.c:80-96 | the address is found exactly when some later non-comment line matches it |
| ParseMail.EmptyAddressMatches | backend/parsemail.c:91 | an empty address is found exactly when the register has a non-comment line |
| ParseMail.CheckClient | backend/parsemail.c:72-100 | 1 when the lowered address matches a line; then the client name is that of the latest "#$" line before it, otherwise it is emptied and 0 returned |
| ParseMail.CheckLine | backend/parsemail.c:80-94 | one register line: it matches exactly when it is not a comment and agrees with the address; a "#$" line sets the client name |
| ParseMail.LoweredCopy | backend/parsemail.c:77-79 | the copy of the address, lower-cased, and its length |
| ParseMail.ReadClientName | backend/parsemail.c:82-88 | the client name becomes the name the "#$" line gives |
| ParseMail.LineMatches | backend/parsemail.c:90-92 | the lowered line and the address agree on the shorter of their lengths |

## Left out

- Floating point: wavelengths, energies and windows are reals. The float32 and float64 columns, and exact float equality of J values, are not modelled.
- Python's `float()` and `int()` accept only ASCII decimal text here. Exponents, `inf`, `nan` and digit separators are not accepted.
- Case mapping is ASCII only, as in the C locale. Python's Unicode `lower()` is modelled the same way.
- The line reader (the LZW decompressor and its binding) is a function parameter. So are the check that a list's files exist and the text of a float.
- Every file, directory and database read becomes a value: the species CSV and its cache, the register, the preferences file, the `.cfg` files, the template files, the models directory and the users. Writes and the database updates of the import commands are not modelled.
- Logging, `stdout`/`stderr` messages and the C code's `fprintf` output are not modelled.
- `LineData.empty` is the empty row sequence, and `string_data` is kept only as the forbid byte of each row.
- The personal-configuration branch of `SetKeyword` copies the user's file (backend/parserequest.c:178-267). Its outcome is a `ConfigFile` parameter (found, created or unavailable).
- `SetKeyword` calls `str2upper` before every test; the model calls it once. Both give the same result because upper-casing is idempotent.
- `strlen`, `strncmp` and `strchr` are functions over the buffer, not loops.
- `FindNearestModel` takes the directory as a list of already parsed names. The `MODEL_NAME_FORMAT` `sscanf` and the `sprintf` of the result are not modelled.
- `FindNearestModel`'s `abs` overflow of `int` is not modelled, because the integers are unbounded.
- `CheckClient` reads a list of lines, each as `fgets` returns it: with its trailing `'\n'`, except possibly the last line of the file. The match test relies on that newline: it keeps an address longer than its line from matching, and keeps an empty line from matching every address. The 160-character split of long lines by `fgets` and the `rewind` are not modelled.
- CheckClient: only the text of the client name is stated, not the bytes after its NUL.
- `CheckAbund`, `compress_species`, `main`, `ShowLine` and the `Extract*` script writers of parserequest.c are not modelled. They print scripts, or parse floats with `sscanf`.
- The mailbox handling of parsemail.c's `main` and `get_last_request_ID`/`put_last_request_ID` are file I/O and are not modelled.
- ParseRequest.ElementNumberMeans: the 99 table entries are not proved distinct; the result is stated as the first match.
- The job queue, `submit_request_direct`, the subprocess pipelines, the output finalisation and `get_config_path_for_user` are not modelled: they are concurrency, process and filesystem plumbing. The configuration path is an input.
- `cleanup_old_results`'s deletion loop and `format_size` are filesystem work and float division, and are not modelled.
- Utils.RenderRequestTemplate: requires that no substituted value contains a backslash. Python's `re.sub` reads escapes in its replacement string (`\n` becomes a newline, an unknown escape such as `\d` raises `re.error`), and the model does not interpret them. A contact message with a backslash (vald/views.py:606-614) is therefore outside the model. Its other requires, that every key is an identifier, always holds, because the keys at the call sites are fixed literals.
- Merge.ComputeWlWindow: requires a non-zero `wl_ref`. The `.cfg` parser accepts 0, and the source then divides by zero in numpy float64 arithmetic without raising: the quotient is `inf` or `-inf`, which the clamp turns into 100 or 0.01 times the reference window, or `nan` when the product `ref * wl` is 0, and a `nan` window merges no pair. The model carries no IEEE special values, so a zero `wl_ref` is outside it.
- Merge.ScanRow: requires a non-zero `wl_ref`, for the same reason as `Merge.ComputeWlWindow`.
- Merge.MergeLinesFull: requires a non-zero `wl_ref`, for the same reason as `Merge.ComputeWlWindow`.
- Extract.ExtractLines: requires a non-zero `wl_ref` in the configuration, for the same reason as `Merge.ComputeWlWindow`.
- Merge.MergeLinesSimple: the rows keep all their fields. The source rebuilds the container from the columns it concatenates, and the fields it does not carry over are `None` in the result; the model does not track those fields.
- Merge.MergeParameters: the Landé-factor and damping-constant sentinel rules are stated by the separate lemma `Merge.MergeParametersSentinels`.
- Python's `str.isdigit` and the regular-expression classes `\w` and `\s` are Unicode-aware; the model uses their ASCII members only.
- LineData.QueryRows: ranks are unbounded integers. The source stores them as `int8` (vald/extraction.py:113-115), while the `.cfg` parsers read them with an unbounded `int()`. A configured rank outside -128..127 then wraps or raises `OverflowError`, depending on the NumPy version; the model does not capture either. The same holds for `LineData.FromQueryResult` and `Extract.SourceRanks`.
- CleanupOldResults.ParseAge: the text of the `OverflowError` message is not modelled. Nor is the `ValueError` that `int()` raises, with its own message, on a count of more than 4300 digits (the default limit of Python 3.11 and later); the model takes the value of any digit string.
- Species.IonStage: the charge is a `nat`. A negative charge in the species CSV would index the Roman-numeral list from its end (vald/species.py:33); that case is not modelled.
- The preferences file is read as a list of lines. Python's universal-newline translation of `\r` and `\r\n` is not modelled.
- vald/models.py, the views, the admin and the templates are not part of this model.

## Findings

| source | as written | input that shows it | evidently intended | confidence | as-written member | corrected member |
|---|---|---|---|---|---|---|
| backend/parserequest.c:497-511 | `tbest` and `gbest` start at -1 and are compared as if they were a model, so a real model is chosen only when it is closer to the target than the value -1 | target 5000 K, log g 4.0, and a directory holding only the model at 10002 K: no model is reported | the nearest parsed model is reported whenever one exists | medium; not executed | ParseRequest.FindNearestModelAsWritten, ParseRequest.PhantomHidesModel | ParseRequest.FindNearestModel, ParseRequest.BestMeans |
| vald/management/commands/import_default_config.py:105-116 | `global_params.get(...)` is called while `global_params` can still be `None` | a `.cfg` file with no global line, imported without `--dry-run`: `AttributeError` | the defaults of the `.get` calls, as import_persconf.py obtains through `global_params or {}` | high; not executed | ImportDefaultConfig.ConfigGlobalsAsWritten, ImportDefaultConfig.NoGlobalLineFails | CfgFormat.ConfigGlobals, ImportDefaultConfig.StoredGlobalsOfFile, ImportDefaultConfig.ConfigGlobalsAgree |
