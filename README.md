# rpminspect `disttag` inspection in Dafny

rpminspect compares the before and after builds of an RPM package and reports
findings as result records. This project models its `disttag` inspection
(`lib/inspect_disttag.c`). That inspection checks that the spec file of a
source package puts the `%{?dist}` macro into its `Release:` tag. The project
proves what the inspection appends to the result list and what it returns.

Modules:

- `Results` (`results.dfy`): the result vocabulary.
  - Severities and waiver authorities.
  - The result record: severity, waiver authority, header, message, detail, remedy.
  - The message and remedy strings as tags. Each tag's `Text()` keeps the C
    literal byte for byte.
  - The `dist-tag` header and the process exit codes.
- `SpecText` (`spec_text.dfy`): the string operations used on one spec-file line.
  - `strprefix` as a prefix test.
  - `strstr` as a left-to-right search, proved equal to "occurs at some index".
  - The line-ending trim `buf[strcspn(buf, "\r\n")] = 0`.
- `DisttagSpec` (`disttag_spec.dfy`): the inspection as functions, with lemmas.
  - The package peers and their file entries as values.
  - Which files the driver looks at, which line the scan stops at, and how that line is classified.
  - Which files the peer walk visits, and what the whole inspection appends and returns.
  - The code as written (`AsWrittenFindings`, `AsWrittenVerdict`) and as evidently intended (`Findings`, `Verdict`).
- `InspectDisttag` (`inspect_disttag.dfy`): the inspection as it runs.
  - The `getline` loop is the method `ScanSpec`.
  - The run state `struct rpminspect` is the class `Rpminspect`. Its `results` sequence is appended to in place by `AddResult`.
  - `DisttagDriver` follows the C branches of `disttag_driver` and calls `ScanSpec`. `DriveFiles` and `WalkPeers` are the two nested peer-walk loops, with loop invariants. `Close` is the closing step. Every method is proved against the functions of `DisttagSpec`.

Inputs the model takes as parameters instead of reading them:

- RPM headers: only the is-source flag and the package name.
- A file's contents: either "cannot be opened" or the sequence of lines `getline` would deliver.

Three behaviours of `lib/inspect_disttag.c` a reader may not expect, and one detail of the trim:

- A scan that reaches `%changelog` before any `Release:` line does not report "missing the Release: tag". The `%changelog` line itself is classified, and it fails unless it holds `%{?dist}` (`ChangelogLineClassified`, `ChangelogFirstFails`).
- `%{?dist}` anywhere in the `Release:` line passes. It need not be at the end.
- A spec file that cannot be opened is a silent pass: no result, return value true.
- The trimmed line also ends at a NUL byte, because every later test reads it as a C string.

## Model

| member | source | states |
|---|---|---|
| SpecText.HasPrefix | lib/inspect_disttag.c:65-72 | reference definition of `strprefix`: the line starts with the marker; the scan lemmas and `ScanSpec` are proved against it |
| SpecText.Contains | lib/inspect_disttag.c:89-94 | reference definition of `strstr(buf, p) != NULL` as a left-to-right search; `ContainsIff` proves it means "occurs at some index" |
| DisttagSpec.IsSpecFileOf | lib/inspect_disttag.c:35-46 | reference definition of the filter: a source package's file whose path is exactly `<name>.spec`; `DriverSilentPasses` and `DisttagDriver` use it |
| DisttagSpec.StopLine | lib/inspect_disttag.c:60-76 | reference definition of the scan: the first trimmed line starting with `%changelog` or `Release:`, or none; `StopLineNone`, `StopLineFirst`, `StopLineAt` and `ScanSpec` are proved against it |
| DisttagSpec.Finding | lib/inspect_disttag.c:84-99 | reference definition of the three-way classification of the found line; `FindingOfLine`, `FindingOfNoLine` and `FindingShape` are proved about it |
| DisttagSpec.DriverFinding | lib/inspect_disttag.c:26-103 | reference definition of what `disttag_driver` appends for one file: nothing, or one finding; `DisttagDriver` is proved against it |
| DisttagSpec.DriverPasses | lib/inspect_disttag.c:26-103 | reference definition of `disttag_driver` returning true: it appended nothing |
| DisttagSpec.Visited | lib/inspect_disttag.c:120-127 | reference definition of a peer passing both `continue` tests: source after header and a non-empty after file list |
| DisttagSpec.VisitedFiles | lib/inspect_disttag.c:120-134 | reference definition of the files the driver is called on, in call order; `SourceSeen`, `VisitedFilesFromAfter`, `AfterFilesVisited` and `WalkPeers` are proved about it |
| DisttagSpec.DriverFindings | lib/inspect_disttag.c:132-133 | reference definition of the results the driver calls append, in call order; `DriveFiles` and `WalkPeers` are proved against it |
| DisttagSpec.LastPasses | lib/inspect_disttag.c:132-133 | reference definition of the overwritten `result` flag: the last call's return value, true when no call was made |
| DisttagSpec.Closing | lib/inspect_disttag.c:137-145 | reference definition of the closing summary for given `src` and `result`; `Close` is proved against it |
| DisttagSpec.AsWrittenFindings | lib/inspect_disttag.c:108-146 | reference definition of everything `inspect_disttag` appends as written; `InspectDisttagAsWritten` is proved against it |
| DisttagSpec.AsWrittenVerdict | lib/inspect_disttag.c:108-146 | reference definition of the return value of `inspect_disttag` as written |
| DisttagSpec.Findings | lib/inspect_disttag.c:108-146 | reference definition of what the corrected inspection appends, with `result` false once any call fails; `InspectDisttag` is proved against it |
| DisttagSpec.Verdict | lib/inspect_disttag.c:108-146 | reference definition of the corrected return value; `VerdictMatchesResults` and `VerdictMeansAllPass` are proved about it |
| SpecText.ContainsIff | lib/inspect_disttag.c:89-94 | the `strstr` search succeeds exactly when the pattern occurs at some index of the line |
| SpecText.CutIndex | lib/inspect_disttag.c:62 | the cut index is within the line, no line end comes before it, and a line end sits at it unless it is the line's length |
| SpecText.Trim | lib/inspect_disttag.c:62 | the trimmed line is a prefix of the raw line, holds no `\r`, `\n` or NUL, and is followed by one of them unless nothing was cut |
| SpecText.TrimTerminated | lib/inspect_disttag.c:62 | a line with no line end, followed by one line end, trims back to the line |
| DisttagSpec.StopLineNone | lib/inspect_disttag.c:60-76 | the scan finds no line exactly when no trimmed line starts with `%changelog` or `Release:` |
| DisttagSpec.StopLineFirst | lib/inspect_disttag.c:60-76 | a found line is a trimmed line that starts with a marker, and no earlier trimmed line does |
| DisttagSpec.StopLineAt | lib/inspect_disttag.c:60-76 | the scan returns the first trimmed line that starts with a marker |
| DisttagSpec.StopLineIgnoresRest | lib/inspect_disttag.c:65-72 | once the scan has stopped, the lines after the stop line never change the outcome |
| DisttagSpec.ReleaseLineScanned | lib/inspect_disttag.c:60-72 | a file holding one newline-ended `Release:` line stops the scan at that line, without its newline |
| DisttagSpec.MacroContainsWord | lib/inspect_disttag.c:89-99 | a line holding `%{?dist}` also holds `dist`, so the "wrong form" branch never fires on a passing line |
| DisttagSpec.FindingOfLine | lib/inspect_disttag.c:89-99 | for a found line: no result iff it holds `%{?dist}`; "wrong form" iff it holds `dist` but not `%{?dist}`; "does not seem to contain" iff it lacks `dist` |
| DisttagSpec.FindingOfNoLine | lib/inspect_disttag.c:84-88 | with no line found the result is BAD, WAIVABLE_BY_ANYONE, header `dist-tag`, "missing the Release: tag", no detail line, remedy REMEDY_DISTTAG |
| DisttagSpec.FindingShape | lib/inspect_disttag.c:84-99 | every driver finding is BAD, WAIVABLE_BY_ANYONE, header `dist-tag`, remedy REMEDY_DISTTAG, and carries the found line (or none) as its detail |
| DisttagSpec.DriverSilentPasses | lib/inspect_disttag.c:34-58 | a file of a binary package, a file other than `<name>.spec`, and a spec file that cannot be opened each add nothing and return true |
| DisttagSpec.ChangelogLineClassified | lib/inspect_disttag.c:64-99 | when `%changelog` comes before any `Release:` line, that line is the one classified: never "missing the Release: tag", and a pass iff it holds `%{?dist}` |
| DisttagSpec.MacroReleasePasses | lib/inspect_disttag.c:70-99 | `Release: 1%{?dist}` adds no result |
| DisttagSpec.BareDistWrongForm | lib/inspect_disttag.c:89-93 | `Release: 1.%{dist}` gives BAD "wrong form" with that line as detail |
| DisttagSpec.PlainReleaseLine | lib/inspect_disttag.c:94-98 | `Release: 1` gives BAD "does not seem to contain" with that line as detail |
| DisttagSpec.NoReleaseLine | lib/inspect_disttag.c:60-88 | a file of a `Name:` and a `Version:` line gives BAD "missing the Release: tag" without a detail line |
| DisttagSpec.ChangelogStopsScan | lib/inspect_disttag.c:64-67 | in `Name: foo`, `%changelog`, `Release: 1%{?dist}` the scan stops at `%changelog` |
| DisttagSpec.ChangelogLineFails | lib/inspect_disttag.c:94-98 | the line `%changelog` gives BAD "does not seem to contain" |
| DisttagSpec.ChangelogFirstFails | lib/inspect_disttag.c:64-99 | that file fails, although its `Release:` line holds the macro |
| DisttagSpec.SourceSeen | lib/inspect_disttag.c:120-130 | `src` ends true exactly when some peer has a source after header and a non-empty after file list |
| DisttagSpec.VisitedFilesFromAfter | lib/inspect_disttag.c:120-134 | every file the driver is called on is an after-build file of such a peer |
| DisttagSpec.AfterFilesVisited | lib/inspect_disttag.c:120-134 | every after-build file of a visited peer is among the files the driver is called on |
| DisttagSpec.BeforeSideIgnored | lib/inspect_disttag.c:120-135 | peers that agree on their after side give the same visited files, results and return value |
| DisttagSpec.DriverFindingsBad | lib/inspect_disttag.c:84-99 | the driver calls append at most one result per file, each BAD, WAIVABLE_BY_ANYONE, `dist-tag` |
| DisttagSpec.DriverFindingsEmpty | lib/inspect_disttag.c:84-102 | the driver calls append nothing exactly when every call returns true |
| DisttagSpec.NoSourcePackage | lib/inspect_disttag.c:140-145 | with no visited peer, exactly one BAD, NOT_WAIVABLE "not a source RPM" result is appended and the inspection returns false |
| DisttagSpec.LastFileDecides | lib/inspect_disttag.c:132-145 | as written, the return value and the OK summary depend only on the last file visited; earlier findings stay in front |
| DisttagSpec.AsWrittenMasksFailure | lib/inspect_disttag.c:132-145 | as written, a failing file followed by a passing one yields the BAD result, the OK summary and true; the corrected verdict is false |
| DisttagSpec.FooSpecFails | lib/inspect_disttag.c:35-98 | `foo.spec` of source package `foo` with the line `Release: 1` gives BAD "does not seem to contain" |
| DisttagSpec.MaskedSpecExample | lib/inspect_disttag.c:132-145 | package `foo` with that `foo.spec` and then a tarball: as written, a BAD and an OK result and true; corrected, false |
| DisttagSpec.VerdictMatchesResults | lib/inspect_disttag.c:137-145 | the corrected inspection returns true exactly when it appended no BAD result |
| DisttagSpec.VerdictMeansAllPass | lib/inspect_disttag.c:120-145 | the corrected inspection returns true exactly when some source peer was visited and every visited file passed |
| InspectDisttag.ScanSpec | lib/inspect_disttag.c:60-76 | the `getline` loop returns the line the scan function stops at |
| InspectDisttag.Rpminspect.AddResult | lib/inspect_disttag.c:86 | `add_result` appends one record and changes nothing else |
| InspectDisttag.Rpminspect.DisttagDriver | lib/inspect_disttag.c:26-103 | `disttag_driver` appends the file's finding, if any, and returns true exactly when it appended none |
| InspectDisttag.Rpminspect.DriveFiles | lib/inspect_disttag.c:132-134 | the inner loop appends every file's finding in order; `result` ends as the last call's value; a second flag tells whether all calls passed |
| InspectDisttag.Rpminspect.WalkPeers | lib/inspect_disttag.c:120-135 | the peer loop appends the findings of exactly the visited files, in order, and sets `src` iff some peer was visited |
| InspectDisttag.Rpminspect.Close | lib/inspect_disttag.c:137-145 | the closing step appends OK, "not a source RPM" or nothing, and returns `src && result` |
| InspectDisttag.Rpminspect.InspectDisttagAsWritten | lib/inspect_disttag.c:108-146 | `inspect_disttag` as written appends `AsWrittenFindings` and returns `AsWrittenVerdict` |
| InspectDisttag.Rpminspect.InspectDisttag | lib/inspect_disttag.c:108-146 | the corrected `inspect_disttag` appends `Findings` and returns `Verdict`: false once any driver call fails |

Constants: `HeaderDisttag` is lib/results.h:36. `RemedyDisttag.Text()` is lib/results.h:79. The exit codes are include/rpminspect.h:89-93.

## Left out

- File I/O: `fopen`, `fclose` and their stderr messages. A file is either unopenable or a sequence of lines.
- The glibc `getline` behaviour at end of file. When the loop runs out of lines, the model takes `buf` to be NULL, as the loop body leaves it. On glibc, `getline` called with a NULL buffer allocates one before it detects end of file, so `buf` is not NULL after the loop and the "missing the Release: tag" branch is in practice not reached: such a file gets "does not seem to contain" with an empty detail line instead. `FindingOfNoLine`, `NoReleaseLine` and the `None` case of `StopLine` describe the evident intent of lib/inspect_disttag.c:84-88 under the NULL assumption, not what a glibc build does.
- RPM header access (`headerIsSource`, `headerGetAsString`). These are the fields `isSource` and `name` of `Header`.
- `strprefix` is modelled as a plain prefix test. Its body is not part of this model.
- `add_result` internals. It is modelled as appending one record to `results`. The call here passes seven arguments, but include/rpminspect.h:217 declares it with a `struct result_params *`; the model follows the call sites.
- Message formatting. Messages are tags whose `Text()` is the literal as stored, with `%s` and `%%` left unformatted.
- A NULL after-file list is the empty sequence.
- The severity and waiver-authority enums are declared in a header outside this model; the constructors follow the C names RESULT_OK…RESULT_BAD and NOT_WAIVABLE, WAIVABLE_BY_ANYONE, WAIVABLE_BY_SECURITY.
- List set operations, peer and file matching, ELF checks, checksums, Koji fetching, output rendering and exit-code aggregation. They are declared in include/rpminspect.h with no visible bodies.
- The debug toggle and the global inspection and format registries: process-wide state with no visible code.
- `assert(ri != NULL)`: `Rpminspect` is a non-null reference.

## Findings

| source | as written | input that shows it | evidently intended | confidence | as-written member | corrected member |
|---|---|---|---|---|---|---|
| lib/inspect_disttag.c:133 | `result = disttag_driver(ri, file)` overwrites the flag on every file, so only the last visited file decides the return value and whether the OK summary is appended | source package `foo` whose after files are `foo.spec` (one line `Release: 1`) and then `foo-1.0.tar.gz`: a BAD "does not seem to contain" result, then an OK `dist-tag` result, and a return value of true | the inspection fails once any driver call fails, and no OK summary is added after a BAD | not executed | DisttagSpec.AsWrittenMasksFailure | InspectDisttag.Rpminspect.InspectDisttag |
