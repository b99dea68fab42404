# FastQC threshold checker, modelled in Dafny

This project models `bin/check_thresholds.py` of a FastQC pipeline. The
checker reads the QC thresholds from an INI file. It extracts read count, GC
content and peak adapter content from each FastQC report archive. It judges
every sample against the thresholds and files the verdicts by sample id.

The model has these modules, which follow the script's functions:

- `Wrappers` (`wrappers.dfy`): `Option`, which stands for Python's `None`, and `Result`, which stands for a raised exception.
- `Text` (`text.dfy`): the `str` operations the script uses.
  - `startswith` and `endswith`.
  - `Contains`, an occurrence test that the script does not use itself. It only serves to state the sample-id lemmas.
  - `split` on a one-character separator, with its inverse `Join`.
  - `replace(pat, "")`.
  - `NumberSyntax`: what `int(...)` and `float(...)` accept. It is a parameter, so every result holds for any number syntax.
- `Fastqc` (`fastqc.dfy`): `parse_fastqc_zip`.
  - The sample id.
  - The choice of the `fastqc_data.txt` member.
  - The basic-statistics loop, as the method `ReadBasicStatistics`, proved against the function `ScanBasic`.
  - The adapter-content state machine, as the method `ReadAdapterContent`, proved against `AdapterPeak`, plus a line-by-line characterisation of `AdapterPeak`.
  - The whole parse, as `ParseFastqcZip`, proved against `ParseArchive`.
- `Config` (`config.dfy`): `load_thresholds`, working on the `[thresholds]` section as `configparser` has already parsed it.
- `Check` (`check.dfy`): `check_sample`.
  - The method `CheckSample` appends reasons the way the script does, and is proved equal to the function `Evaluate`.
  - `Reasons` states the order of the reasons, why each was given, and exactly when each appears.
- `Batch` (`batch.dfy`): the results loop of `main`.
  - The method `BuildResults` is proved equal to the fold `Collect` over the parse outcomes.
  - Lemmas state which samples appear, which record wins for a repeated sample, and when the run aborts.

Where the code and its documentation or tests disagree, the model follows the code:

- **Malformed numbers.** A `Total Sequences` or `%GC` line whose second tab field is missing or not a number makes `int(...)`/`float(...)` raise. The value is not left absent. The model returns `Err(MissingField(i))` or `Err(NotANumber(i))`, where `i` is the index of the line. `main` does not catch the exception, so the whole batch aborts.
- **Missing config file.** `ConfigParser.read` skips a file it cannot open, so a missing configuration file gives the empty threshold dictionary. It does not raise `FileNotFoundError`, although `tests/test_check_thresholds.py:48-53` expects that error.
- **Missing adapter section.** When a report member exists, `adapter_content_max` is always set. It is `0.0` when the report has no adapter section.
- **Reading the report member.** `zf.open(name)` opens the last member of that name. So the model first takes the first name that ends with `fastqc_data.txt`, then reads the last entry that carries that name.
- **Tests of `check_sample`.** The unit tests call `validate_metrics`, which the script does not define. Their scenarios are stated here as lemmas about `check_sample`.

## Model

| member | source | states |
|---|---|---|
| Text.StartsWith | bin/check_thresholds.py:55 | `startswith` holds exactly when the text is at least as long as the prefix and agrees with it character by character |
| Text.EndsWith | bin/check_thresholds.py:49 | `endswith` holds exactly when the text is at least as long as the suffix and its last characters agree with the suffix |
| Text.Split | bin/check_thresholds.py:56 | `split("\t")` always gives at least one field; no field holds the separator; there are two or more fields exactly when the text holds a tab |
| Text.JoinSplit | bin/check_thresholds.py:76 | splitting loses nothing: joining the fields with the separator gives back the line |
| Text.JoinHead | bin/check_thresholds.py:56 | a proof step for `Fastqc.SecondFieldShape`, not an operation of the script: the join that inverts `split` starts with the first field, followed by the separator and the join of the other fields when there are any |
| Text.SplitAtFirst | bin/check_thresholds.py:56 | the text up to the first tab is the first field, and the fields after it are the split of the rest |
| Text.RemoveAll | bin/check_thresholds.py:40 | `replace(pat, "")` never lengthens the text |
| Text.RemoveAllAbsent | bin/check_thresholds.py:40 | a text without the pattern is returned unchanged |
| Text.RemoveAllSplice | bin/check_thresholds.py:40 | when the pattern's first character does not recur in it, removal around one occurrence is removal on each side of it |
| Fastqc.SampleId | bin/check_thresholds.py:40 | the sample id is the stem with `_fastqc` removed, and is never longer than the stem |
| Fastqc.SampleIdUnchanged | bin/check_thresholds.py:40 | a stem that does not mention `_fastqc` is its own sample id |
| Fastqc.SampleIdDropsSuffix | bin/check_thresholds.py:40 | appending `_fastqc` does not change the sample id; `X_fastqc` gives `X` when `X` does not mention `_fastqc` |
| Fastqc.SampleIdExample | bin/check_thresholds.py:40 | `sampleA_fastqc` gives `sampleA` |
| Fastqc.SampleIdCutsOnce | bin/check_thresholds.py:40 | one occurrence between two texts free of `_fastqc` is cut out, leaving the two texts joined |
| Fastqc.SampleIdSinglePass | bin/check_thresholds.py:40 | removal is a single pass: `x_fas_fastqctqc` gives `x_fastqc`, which again spells the suffix |
| Fastqc.FirstReport | bin/check_thresholds.py:49-50 | the position of the first member whose name ends with `fastqc_data.txt`; none exactly when no name does |
| Fastqc.LastEntryNamed | bin/check_thresholds.py:52 | opening by name picks the last member of that name; none exactly when no member has it |
| Fastqc.ReportLines | bin/check_thresholds.py:49-52 | a report is read exactly when some member name ends with `fastqc_data.txt` |
| Fastqc.SecondField | bin/check_thresholds.py:56 | `line.split("\t")[1]` exists exactly when the line holds a tab; it is the text after the first tab up to the next tab or the end of the line |
| Fastqc.SecondFieldShape | bin/check_thresholds.py:56 | the second field starts right after the first tab and ends at the next tab or at the end of the line |
| Fastqc.SecondFieldAfterFirstTab | bin/check_thresholds.py:56 | for a line made of a tab-free text, a tab and a rest, the second field is the first field of the rest |
| Fastqc.Malformed | bin/check_thresholds.py:55-58 | only a `Total Sequences` or `%GC` line can make the first scan raise |
| Fastqc.ErrorAt | bin/check_thresholds.py:56-58 | the error names the offending line; it is the missing-field error (`IndexError`) exactly when the line has no tab |
| Fastqc.ScanLine | bin/check_thresholds.py:55-58 | one `if`/`elif` step: it raises exactly on a malformed marker line, with the right error; it sets the read count from a `Total Sequences` line and the GC content from a `%GC` line; it changes at most one field and never the others |
| Fastqc.ScanBasic | bin/check_thresholds.py:53-58 | the first scan never changes the sample, Q30 or adapter fields |
| Fastqc.ScanBasicErrors | bin/check_thresholds.py:53-58 | the scan raises exactly when some line is malformed, and it reports the first such line |
| Fastqc.ScanBasicLastTotal | bin/check_thresholds.py:55-56 | the last `Total Sequences` line decides the read count, which is then present |
| Fastqc.ScanBasicNoTotal | bin/check_thresholds.py:55-56 | without a `Total Sequences` line the read count keeps its initial value |
| Fastqc.ScanBasicLastGc | bin/check_thresholds.py:57-58 | the last `%GC` line decides the GC content, which is then present |
| Fastqc.ScanBasicNoGc | bin/check_thresholds.py:57-58 | without a `%GC` line the GC content keeps its initial value |
| Fastqc.ScanBasicSomeTotal | bin/check_thresholds.py:55-56 | a scan that does not raise and meets a `Total Sequences` line ends with a read count |
| Fastqc.ScanBasicFailureSticks | bin/check_thresholds.py:53-58 | once a prefix of the report raises, the whole scan raises the same error |
| Fastqc.ReadBasicStatistics | bin/check_thresholds.py:53-58 | the loop that updates the metrics in place computes `ScanBasic`, including its errors |
| Fastqc.StartIsNotEnd | bin/check_thresholds.py:68-73 | a `>>Adapter Content` line is never taken for `>>END_MODULE` |
| Fastqc.AfterAdapterStart | bin/check_thresholds.py:68-70 | what the scan sees after the marker is shorter than the report, and a non-empty rest comes right after a `>>Adapter Content` line |
| Fastqc.BeforeModuleEnd | bin/check_thresholds.py:72-73 | the section body is a prefix of what follows the marker and holds no `>>END_MODULE` line |
| Fastqc.AdapterSection | bin/check_thresholds.py:66-73 | the section body is shorter than the report and holds no `>>END_MODULE` line |
| Fastqc.RowNumbers | bin/check_thresholds.py:74-82 | a row yields fewer numbers than it has fields, because the first column is ignored; comment lines, empty lines and repeated markers yield none |
| Fastqc.SectionNumbers | bin/check_thresholds.py:71-82 | a section made only of comment lines, empty lines and markers yields no numbers |
| Fastqc.Numbers | bin/check_thresholds.py:78-82 | the numbers of a row are at most as many as its fields |
| Fastqc.Max | bin/check_thresholds.py:80 | `max(a, b)` is at least both and is one of them |
| Fastqc.RunningMax | bin/check_thresholds.py:80 | folding `max` never goes below the start value |
| Fastqc.AdapterPeak | bin/check_thresholds.py:65-83 | `max_adapter` never ends below its start value 0.0 |
| Fastqc.RunningMaxIsMaximum | bin/check_thresholds.py:80 | folding `max` from `m` gives a value that is at least `m` and at least every element, and that equals `m` or some element |
| Fastqc.RunningMaxAppend | bin/check_thresholds.py:78-80 | folding over two pieces in turn is folding over their concatenation |
| Fastqc.AfterAdapterStartSkip | bin/check_thresholds.py:68-71 | lines before the first marker are ignored |
| Fastqc.AfterAdapterStartStep | bin/check_thresholds.py:68-71 | one step of the search for the marker |
| Fastqc.BeforeModuleEndStep | bin/check_thresholds.py:71-73 | one step inside the section: stop at the end of the lines or at `>>END_MODULE`, else keep the line |
| Fastqc.FoldFields | bin/check_thresholds.py:78-82 | the inner `for` loop folds every field that parses into the running maximum and skips the rest |
| Fastqc.FoldRow | bin/check_thresholds.py:74-82 | a section line: comment and empty lines leave the maximum unchanged; otherwise the fields after the first are folded in |
| Fastqc.PeakFrom | bin/check_thresholds.py:71-82 | the rest of the in-section scan never lowers the running maximum |
| Fastqc.SearchFrom | bin/check_thresholds.py:64-82 | the rest of the scan from the search state ends at 0.0 or above |
| Fastqc.PeakFromFolds | bin/check_thresholds.py:71-82 | the remaining scan inside the section folds the numbers of every section line ahead, up to `>>END_MODULE` |
| Fastqc.SearchFromIsPeak | bin/check_thresholds.py:64-83 | the remaining scan from any line, before the marker, computes the adapter peak of the remaining lines |
| Fastqc.ReadAdapterContent | bin/check_thresholds.py:63-83 | the flag-and-accumulator loop computes `AdapterPeak`, the running maximum over the numbers of the section body |
| Fastqc.NumbersHas | bin/check_thresholds.py:78-82 | every field that parses contributes its number |
| Fastqc.NumbersFrom | bin/check_thresholds.py:78-82 | every number comes from a field that parses to it |
| Fastqc.SectionNumbersHas | bin/check_thresholds.py:71-82 | every number of a section row is among the section's numbers |
| Fastqc.SectionNumbersFrom | bin/check_thresholds.py:71-82 | every number of the section comes from one of its rows |
| Fastqc.AfterFirstAdapterStart | bin/check_thresholds.py:68-70 | the section starts right after the first `>>Adapter Content` line |
| Fastqc.BeforeModuleEndShape | bin/check_thresholds.py:72-73 | the body is the prefix up to the first `>>END_MODULE` line, and no earlier line ends the module |
| Fastqc.AdapterSectionShape | bin/check_thresholds.py:66-73 | the section body is exactly the lines after the first marker, up to the first `>>END_MODULE` after it or the end of the report |
| Fastqc.DataRowInSection | bin/check_thresholds.py:71-76 | every data row lies in the section body, at its position |
| Fastqc.SectionRowIsDataRow | bin/check_thresholds.py:71-76 | every section line that is not skipped is a data row |
| Fastqc.RowNumberIsField | bin/check_thresholds.py:76-82 | every number of a row is some field in column 2 or later |
| Fastqc.AdapterPeakWithoutSection | bin/check_thresholds.py:64-83 | without a `>>Adapter Content` line the result is exactly 0.0 |
| Fastqc.PeakAtLeastField | bin/check_thresholds.py:74-82 | the peak is at least every number in columns 2 and later of every data row |
| Fastqc.PeakRow | bin/check_thresholds.py:71-82 | a non-zero peak is a number of some data row |
| Fastqc.PeakIsField | bin/check_thresholds.py:76-82 | a non-zero peak is some field in column 2 or later of a data row |
| Fastqc.AdapterPeakIsMaximum | bin/check_thresholds.py:63-83 | the peak is at least 0.0 and at least every numeric field in column 2 or later of the data rows; it is 0.0 or one of them; it is 0.0 when there is no such field |
| Fastqc.ParseArchive | bin/check_thresholds.py:39-85 | the sample is the stem's id and Q30 stays absent; without a report all four metrics stay absent; with a report, the parse raises exactly when the first scan does, with its error, and otherwise the read count and GC content are the scan's and the adapter value is the report's peak |
| Fastqc.ParseFastqcZip | bin/check_thresholds.py:34-85 | the parse of an opened archive equals `ParseArchive`, including its errors |
| Config.Get | bin/check_thresholds.py:26-30 | `getint`/`getfloat` with a fallback: an absent key gives the fallback; a present key gives its converted value and raises exactly when it does not convert, naming that key |
| Config.LoadThresholds | bin/check_thresholds.py:20-31 | without a section, the empty dictionary; with one, each key takes its converted value or its default; it raises exactly when some present value does not convert, naming the first such key in source order |
| Config.SectionWithoutKeysGivesDefaults | bin/check_thresholds.py:24-30 | a section without any of the five keys gives exactly the defaults |
| Config.AbsentKeysTakeDefaults | bin/check_thresholds.py:26-30 | each absent key gives its default: 10000, 80.0, 5.0, 30.0 and 70.0 |
| Config.MissingSectionGivesEmpty | bin/check_thresholds.py:20-31 | a missing file or section gives the empty dictionary and raises nothing |
| Config.ConfigExample | tests/test_check_thresholds.py:30-46 | the four configured values are read, and `min_pct_q30` takes its default |
| Check.Outcome | bin/check_thresholds.py:91-110 | each check appends at most one reason, and one exactly when it fails |
| Check.OutcomeJustified | bin/check_thresholds.py:91-110 | the reason a failing check appends carries that check's rank and the values it compared, which fail the comparison |
| Check.AppendCheck | bin/check_thresholds.py:89-110 | running the next check keeps the reasons in evaluation order and justified, and lists its rank exactly when it fails |
| Check.AllChecksCollected | bin/check_thresholds.py:89-110 | the four checks run in order collect an ordered, justified list that names exactly the failed checks |
| Check.Reasons | bin/check_thresholds.py:89-110 | the reasons are in the order reads, low GC, high GC, adapter; there are at most four; each carries the compared values and holds strictly; each appears exactly when its metric and limit are present and the comparison fails |
| Check.Evaluate | bin/check_thresholds.py:88-119 | status is PASS exactly when there are no reasons; every metric field is copied unchanged |
| Check.CheckSample | bin/check_thresholds.py:88-119 | appending reasons one check at a time gives `Evaluate` |
| Check.BoundaryPasses | bin/check_thresholds.py:93-107 | each check on its own: a metric equal to its limit never gives that check's reason, whatever the other metrics are |
| Check.AllAtLimitsPass | bin/check_thresholds.py:93-114 | a sample whose every metric sits at its limit passes |
| Check.GcWindow | bin/check_thresholds.py:96-103 | with both GC limits, the GC checks are silent exactly inside [min_gc, max_gc], and both fire only when min_gc > max_gc |
| Check.NoThresholdsPass | bin/check_thresholds.py:88-119 | the empty threshold dictionary passes every sample |
| Check.Q30Ignored | bin/check_thresholds.py:112 | the Q30 metric and threshold never change status or reasons |
| Check.ExamplePass | tests/test_check_thresholds.py:59-77 | 150000 reads, 50.0 GC and 2.0 adapter against 100000/30/70/5 pass with no reasons |
| Check.ExampleLowReads | tests/test_check_thresholds.py:79-97 | 50000 reads fail with the single reason reads 50000 < 100000 |
| Check.ExampleHighGc | tests/test_check_thresholds.py:99-117 | 85.0 GC fails with the single reason GC 85.0 > 70.0 |
| Batch.Collect | bin/check_thresholds.py:131-138 | the fold over the parse outcomes files every verdict under its own sample, and every filed verdict has a read count |
| Batch.Step | bin/check_thresholds.py:133-138 | one iteration raises exactly when the parse did; otherwise it keeps every earlier key and keeps every verdict filed under its own sample |
| Batch.ParseAll | bin/check_thresholds.py:132-133 | one parse outcome per archive, in order, each for that archive's sample |
| Batch.Run | bin/check_thresholds.py:131-138 | the run raises exactly when some archive fails to parse; otherwise every verdict is filed under its own sample and has a read count |
| Batch.CollectSnoc | bin/check_thresholds.py:132-138 | one more archive is one more step of the fold |
| Batch.AbortSticks | bin/check_thresholds.py:132-133 | once a parse raises, the run ends with that error |
| Batch.CollectErrors | bin/check_thresholds.py:132-133 | the run raises exactly when some archive fails to parse, and then with the first such error |
| Batch.StepKeys | bin/check_thresholds.py:134-138 | one iteration adds exactly the sample of a record that has a read count |
| Batch.CollectKeys | bin/check_thresholds.py:131-138 | a sample is in the results exactly when some record with a read count carries it; records without one never appear |
| Batch.CollectLastWins | bin/check_thresholds.py:138 | for a repeated sample, the last record with a read count gives the verdict |
| Batch.CollectValues | bin/check_thresholds.py:131-138 | every verdict is the check of some kept record of its sample, filed under that sample, with a read count |
| Batch.MissingConfigAllPass | bin/check_thresholds.py:129-138 | with the empty threshold dictionary every sample passes |
| Batch.RunKeys | bin/check_thresholds.py:132-138 | per archive: a sample id is a key exactly when one of its archives parses with a read count |
| Batch.ArchiveKept | bin/check_thresholds.py:53-56 | an archive whose report scans without raising is kept exactly when the report has a `Total Sequences` line |
| Batch.ReportlessArchiveSkipped | bin/check_thresholds.py:134-136 | an archive without `fastqc_data.txt` parses, but it has no read count and is skipped |
| Batch.BuildResults | bin/check_thresholds.py:131-138 | the loop that inserts into `results` computes `Run`: it aborts on the first failed parse, skips records without a read count, and lets a later record overwrite an earlier one |

## Left out

- Command-line parsing, the directory check, the file-system glob and its sort, `mkdir` and writing the JSON file (lines 10-17, 125-127, 140-143). The archive list is taken as already sorted, and the result map is the output.
- Opening and decompressing the zip file and decoding with `utf-8`/`errors="ignore"`. These are foreign library calls. An archive is a stem plus members, each with its name and its lines, already decoded and stripped.
- A corrupt or unreadable archive. There `zipfile.ZipFile` raises `BadZipFile` (or an `OSError`), and `main` aborts. Every archive in the model opens.
- `Path.stem`: the stem is taken as given.
- INI text parsing by `configparser`. The `[thresholds]` section is an input map from key to raw value. Not modelled: `DEFAULT`-section inheritance, interpolation and the case folding of keys.
- IEEE floats: `real` stands for `float`, so NaN, infinities and rounding are not modelled. What `int(...)` and `float(...)` accept is the `NumberSyntax` parameter.
- The exact wording of the reason messages. A reason is a tagged value that carries the observed value and the limit.
- The insertion order of the result dictionary, which only shows in the JSON output. Results are a `map`.
- `pct_q30`: it is never filled (line 43) and never checked (line 112). It is carried as `None`.
- The second `zf.open` of the report member: both loops read the same lines, since a member's content does not change between opens.
