# apk-tools in Dafny

apk-tools is a web front end for two Android APK analysers, ReconizeX and
SecureApk. Each one runs in a Docker container. An Express server
(`apk-tools-server/src/index.ts`) takes an uploaded APK and picks the tool's
input and output directories. It clears the output directory and runs the
container. Then it reads the tool's result file and returns the raw text.
The Next.js client validates the upload (`file-upload.tsx`) and lets the user
tick analysis options (`options-section.tsx`). It then parses the raw text
into structured findings and counts them by severity:

- `secureapk-results.tsx` handles SecureApk's line-oriented report;
- `analysis-results.tsx` handles ReconizeX's `[type] [fileType] [severity] path` lines.

This project models that core and proves properties of it:

- `js_string.dfy` (module `JsString`): the JavaScript string operations the
  code is built from, with their exact semantics for string arguments:
  - `indexOf` and `includes`;
  - `startsWith` and `endsWith`;
  - `replace`, which changes only the first occurrence;
  - `split`, which splits at the leftmost non-overlapping occurrences;
  - `trim`, with the full ECMAScript white-space set;
  - `substring`.
- `seqs.dfy` (module `Seqs`): `[...new Set(xs)]` and occurrence counts.
- `secureapk.dfy` (module `SecureApk`): SecureApk's parser. It has two forms:
  - a pure specification (`Step`, `Run`, `Parse`);
  - the imperative loop of the source (`ParseResults`). Its native-library
    reports are objects updated in place through the `currentSoFile` alias.

  Also severity rating, counts and distinct types.
- `analysis_results.dfy` (module `AnalysisResults`): ReconizeX's line parser.
  It models the regular expression `\[(.*?)\] \[(.*?)\] \[(.*?)\] (.*)` with its
  exact backtracking behaviour. Also grouping by severity (an imperative
  loop, as the `reduce` that pushes into arrays), badge counts, distinct types
  and label normalisation.
- `files.dfy` (module `Files`): the part of the host file system the server
  touches, as a class whose `entries` map paths to files and directories.
  `cleanupDirectory` is modelled as a recursive method.
- `server.dfy` (module `Server`): the server:
  - the tools table and result paths;
  - multer's filter, size limit and storage;
  - the error handler and the Docker command;
  - classification of the container run (complete, partial or failed);
  - the request handler over the file system.
- `file_upload.dfy` (module `FileUpload`): `validateFile`, and the upload
  widget's state as a class.
- `options_section.dfy` (module `OptionsSection`): the selection list and its updates.
- `wrappers.dfy` (module `Wrappers`): `Option`.

The model follows the code where it departs from the documented behaviour:

- A SecureApk vulnerability always carries a `line` field. It is `""` when the
  alert line has no ` (line `.
- A file over the server's 100 MB limit is answered with status 500. The
  multer error has no `status`, so `errorHandler` falls back to 500.
- The `android-smali-` alternative of the label pattern never applies.
  `android-` is tried first at the same position and always matches there,
  so `android-smali-x` is displayed as `smali x` (`AnalysisResults.AndroidSmaliLabel`).
- Grouping by severity fails for a severity that is the name of a member of
  `Object.prototype`, such as `toString`, `constructor` or `__proto__`. The
  accumulator `{}` already has such a key, so the array is never created and
  `push` throws (`AnalysisResults.GroupBySeverity`).

## Model

| member | source | states |
|---|---|---|
| SecureApk.DetermineSeverity | apk-tools-client/components/secureapk-results.tsx:151-176 | Never "info". Critical iff the lower-cased type contains a critical keyword. High iff it contains no critical keyword but a high one. Low iff it contains only the "http url" keyword. Medium in every other case, including the default. |
| SecureApk.CriticalOutranksHigh | apk-tools-client/components/secureapk-results.tsx:154-165 | A type with both a critical and a high keyword is rated critical. |
| SecureApk.CountOf | apk-tools-client/components/secureapk-results.tsx:184-187 | A severity count never exceeds the number of vulnerabilities. |
| SecureApk.CountsSumToTotal | apk-tools-client/components/secureapk-results.tsx:184-187 | Without "info" entries, the four severity counts add up to the total. |
| SecureApk.SeverityCountsCoverAll | apk-tools-client/components/secureapk-results.tsx:39-187 | For every input text, the critical, high, medium and low counts of the parsed vulnerabilities add up to their number. |
| SecureApk.VulnerabilityTypes | apk-tools-client/components/secureapk-results.tsx:181 | Each vulnerability type once, every type present and nothing else, in the order of first occurrence that the "by type" list shows. |
| SecureApk.NativeIssueOf | apk-tools-client/components/secureapk-results.tsx:70-88 | Details are the trimmed text after the 4-character marker. The type is the trimmed text before the first ":" of the details, or all of the details when there is none. Severity is medium iff the line starts with the warning marker, else info. No issue exactly for "Analysis complete" and "Analysis finished" lines. |
| SecureApk.AlertLine | apk-tools-client/components/secureapk-results.tsx:91-122 | No vulnerability iff the line contains the schema URL or has no " detected in " after its marker. Otherwise no risk yet, severity from `determineSeverity`, and all four text fields trimmed. |
| SecureApk.RiskText | apk-tools-client/components/secureapk-results.tsx:126 | The risk is the trimmed rest of the line after the risk marker. |
| SecureApk.AppendIssue | apk-tools-client/components/secureapk-results.tsx:82-86 | Only the last report changes: its issue list gains the issue at the end. |
| SecureApk.VulnerabilityStep | apk-tools-client/components/secureapk-results.tsx:90-144 | Alert and risk lines never touch the native-library reports. |
| SecureApk.Parse | apk-tools-client/components/secureapk-results.tsx:39-40 | The empty text gives no vulnerabilities and no reports. |
| SecureApk.SoReport.constructor | apk-tools-client/components/secureapk-results.tsx:64 | A new report for the named library, with no issues. |
| SecureApk.PushIssue | apk-tools-client/components/secureapk-results.tsx:82-86 | Pushing through `currentSoFile` changes exactly the last report of `soFiles`, by aliasing. |
| SecureApk.Step | apk-tools-client/components/secureapk-results.tsx:50-144 | One pass of the loop body on a trimmed line, as a value. Specified branch by branch by `NoiseLineKeepsState`, `SoHeaderOpensReport`, `IssueGoesToLastReport`, `IssueWithoutReportFlushes`, `IgnoredAlertKeepsState`, `AlertReplacesPending`, `RiskEmitsPending`, `RiskWithoutPendingKeepsState` and `OtherLineFlushes`. |
| SecureApk.Run | apk-tools-client/components/secureapk-results.tsx:49-145 | The loop over all lines from the empty state. Its invariants are `RunRated`, `RunExtends` and `RecordsWithinLines`. |
| SecureApk.ParseLine | apk-tools-client/components/secureapk-results.tsx:50-144 | One iteration of the loop moves the variables from state `st` to `Step(st, raw)`. Reports are kept or freshly created. |
| SecureApk.OpenReport | apk-tools-client/components/secureapk-results.tsx:62-67 | A header line creates a fresh report object, appends it to `soFiles` and makes it `currentSoFile`. The objects then mirror the state with an empty report for that file added. |
| SecureApk.AddIssueTo | apk-tools-client/components/secureapk-results.tsx:70-88 | Pushing an issue through `currentSoFile` keeps the objects mirroring the state, with the issue added to the last report. An ignored line adds nothing. |
| SecureApk.ParseVulnerabilityLine | apk-tools-client/components/secureapk-results.tsx:90-144 | The alert, risk and flush branches update the list and the pending vulnerability as `VulnerabilityStep` says. |
| SecureApk.ParseLines | apk-tools-client/components/secureapk-results.tsx:49-145 | The loop over the lines leaves the vulnerabilities of `Run(lines)` and report objects holding exactly its reports. |
| SecureApk.ParseResults | apk-tools-client/components/secureapk-results.tsx:39-148 | The loop returns the vulnerabilities of `Parse(text)`, and report objects holding exactly its reports. |
| SecureApk.LineKindsDisjoint | apk-tools-client/components/secureapk-results.tsx:62-135 | The prefixes of header, issue, alert, risk and "Found" lines exclude one another. |
| SecureApk.NoiseLineKeepsState | apk-tools-client/components/secureapk-results.tsx:53-59 | Blank, divider and banner lines and the "Found … .so files" header change nothing. |
| SecureApk.SoHeaderOpensReport | apk-tools-client/components/secureapk-results.tsx:62-67 | An "Analyzing … .so" line appends an empty report. Its name is the rest of the line with the first "..." removed. |
| SecureApk.IssueGoesToLastReport | apk-tools-client/components/secureapk-results.tsx:70-88 | With a report open, an issue line appends its issue to the last report. Everything else is unchanged. |
| SecureApk.IssueWithoutReportFlushes | apk-tools-client/components/secureapk-results.tsx:70-144 | Before any report is open, an issue line falls through and emits the pending vulnerability. |
| SecureApk.IgnoredAlertKeepsState | apk-tools-client/components/secureapk-results.tsx:91-99 | A schema-URL alert, or an alert without " detected in ", changes nothing. |
| SecureApk.AlertReplacesPending | apk-tools-client/components/secureapk-results.tsx:114-121 | An accepted alert becomes the pending vulnerability, replacing any earlier one, and emits nothing. |
| SecureApk.RiskEmitsPending | apk-tools-client/components/secureapk-results.tsx:125-132 | A risk line sets the pending vulnerability's risk, appends it to the list and clears it. |
| SecureApk.RiskWithoutPendingKeepsState | apk-tools-client/components/secureapk-results.tsx:125-144 | A risk line with nothing pending changes nothing. |
| SecureApk.OtherLineFlushes | apk-tools-client/components/secureapk-results.tsx:140-144 | Any other line emits the pending vulnerability without a risk. |
| SecureApk.AlertLineParts | apk-tools-client/components/secureapk-results.tsx:98-120 | `[!] <type> detected in <file> (line <n>): <details>` yields exactly those four parts, with the severity of the type. |
| SecureApk.AlertLineWithoutLine | apk-tools-client/components/secureapk-results.tsx:102-112 | Without " (line ", line and details are "". |
| SecureApk.AlertThenRisk | apk-tools-client/components/secureapk-results.tsx:91-132 | An alert followed by its risk line yields exactly that vulnerability with that risk. |
| SecureApk.SecondAlertLosesFirst | apk-tools-client/components/secureapk-results.tsx:114-121 | A second alert before the first one's risk line discards the first. |
| SecureApk.PendingDroppedAtEnd | apk-tools-client/components/secureapk-results.tsx:42-147 | For any lines followed by an accepted alert line, parsing the joined text gives the findings of the lines before the alert: the pending vulnerability is not reported. |
| SecureApk.RunEndsWithAlert | apk-tools-client/components/secureapk-results.tsx:114-147 | After any lines, a final accepted alert only becomes the pending vulnerability. The vulnerabilities and reports stay those of the earlier lines. |
| SecureApk.ParseOfLines | apk-tools-client/components/secureapk-results.tsx:39-42 | Lines without line feeds, joined by line feeds, are parsed by running the pass over exactly those lines. |
| SecureApk.VulnerabilityStepRated | apk-tools-client/components/secureapk-results.tsx:119 | Alert, risk and flushing lines keep each vulnerability's severity, emitted or pending, equal to `determineSeverity` of its type. |
| SecureApk.StepRated | apk-tools-client/components/secureapk-results.tsx:49-145 | One iteration of any kind keeps that invariant. |
| SecureApk.RunRated | apk-tools-client/components/secureapk-results.tsx:49-145 | After any lines, every vulnerability, emitted or pending, has the severity `determineSeverity` gives its type. |
| SecureApk.StepExtends | apk-tools-client/components/secureapk-results.tsx:49-145 | One iteration only appends. Earlier vulnerabilities and reports are kept, and only the last report can gain issues. |
| SecureApk.RunExtends | apk-tools-client/components/secureapk-results.tsx:49-147 | The result for the whole input extends the state after any prefix of it. |
| SecureApk.SoIssuesCount | apk-tools-client/components/secureapk-results.tsx:188 | The total number of issues over all reports. `SoIssuesCountAppendIssue` states how it grows. |
| SecureApk.SoIssuesCountAppendIssue | apk-tools-client/components/secureapk-results.tsx:188 | Adding an issue raises `soIssuesCount` by exactly one. |
| SecureApk.StepAddsAtMostOne | apk-tools-client/components/secureapk-results.tsx:49-145 | One line adds at most one record: a vulnerability, a report or an issue. |
| SecureApk.RecordsWithinLines | apk-tools-client/components/secureapk-results.tsx:42-147 | There are never more records than input lines. |
| AnalysisResults.UpToTerminator | apk-tools-client/components/analysis-results.tsx:35 | The greedy `(.*)` takes the longest prefix without a line terminator. |
| AnalysisResults.Groups | apk-tools-client/components/analysis-results.tsx:35 | A match from lazy group `level` onwards has one capture per remaining group. |
| AnalysisResults.AfterDelimiter | apk-tools-client/components/analysis-results.tsx:35 | A match after a delimiter has one capture per remaining group. |
| AnalysisResults.Search | apk-tools-client/components/analysis-results.tsx:35 | A match has exactly four captures. |
| AnalysisResults.ParseLine | apk-tools-client/components/analysis-results.tsx:33-49 | The four captures of the pattern, or "unknown" fields with the raw line as path. Specified by `WellFormedLine` and `UnbracketedLineIsUnknown`. |
| AnalysisResults.UnbracketedLineIsUnknown | apk-tools-client/components/analysis-results.tsx:35-49 | A line without "[" is all "unknown", with the line as its path. |
| AnalysisResults.NoBracketNoMatch | apk-tools-client/components/analysis-results.tsx:35 | The pattern cannot match text without "[". |
| AnalysisResults.GroupEndsAt | apk-tools-client/components/analysis-results.tsx:35 | A lazy group ends at the first delimiter that lets the rest match. |
| AnalysisResults.ParsesAt | apk-tools-client/components/analysis-results.tsx:33-43 | A line with the three delimiters at given positions and plain tags parses into those four fields. |
| AnalysisResults.SecondDelimiterOn | apk-tools-client/components/analysis-results.tsx:35 | From the first delimiter, the remaining three captures are the next tags and the path. |
| AnalysisResults.ThirdDelimiterOn | apk-tools-client/components/analysis-results.tsx:35 | From the second delimiter, the remaining two captures are the severity and the path. |
| AnalysisResults.WellFormedLine | apk-tools-client/components/analysis-results.tsx:33-43 | `[t] [f] [s] p` with tags free of "]" parses back to type t, file type f, severity s and path p. |
| AnalysisResults.NonBlank | apk-tools-client/components/analysis-results.tsx:32 | The filter never adds lines. |
| AnalysisResults.NonBlankKeepsNonBlankLines | apk-tools-client/components/analysis-results.tsx:32 | Every kept line is a line of the input, and its trimmed form is not empty. |
| AnalysisResults.NonBlankSnoc | apk-tools-client/components/analysis-results.tsx:32 | A further line is kept at the end iff it is not blank. Earlier results are unchanged. |
| AnalysisResults.ParseResults | apk-tools-client/components/analysis-results.tsx:27-28 | The empty text gives no records. |
| AnalysisResults.ParseOneMoreLine | apk-tools-client/components/analysis-results.tsx:30-50 | One record per non-blank line, in input order. |
| AnalysisResults.ParseAllSnoc | apk-tools-client/components/analysis-results.tsx:33-50 | The mapping is line by line, in order. |
| AnalysisResults.SingleLine | apk-tools-client/components/analysis-results.tsx:27-50 | A one-line text gives its record if the line is not blank, and nothing otherwise. |
| AnalysisResults.WithSeverity | apk-tools-client/components/analysis-results.tsx:56-66 | A group holds only records of its severity. |
| AnalysisResults.GroupBySeverity | apk-tools-client/components/analysis-results.tsx:56-66 | The `reduce` throws (`None`) exactly when some severity is the name of a member every object inherits, such as "toString" or "__proto__". Otherwise the keys are exactly the severities that occur, and each key holds exactly its records, in input order. |
| AnalysisResults.CountedSeveritiesGroup | apk-tools-client/components/analysis-results.tsx:56-72 | Records whose severities are the counted levels or "unknown" are always grouped. |
| AnalysisResults.BadgeCount | apk-tools-client/components/analysis-results.tsx:69-72 | The group's length, or 0 when there is no group. `BadgeCountIsCount` proves it equals the number of records with that severity. |
| AnalysisResults.BadgeCountIsCount | apk-tools-client/components/analysis-results.tsx:69-72 | A severity badge counts exactly the records with that severity, and is 0 when there are none. |
| AnalysisResults.EveryRecordInItsGroup | apk-tools-client/components/analysis-results.tsx:56-66 | Each record is in the group of its own severity, and in no other group. |
| AnalysisResults.AbsentSeverityEmpty | apk-tools-client/components/analysis-results.tsx:59-62 | A severity that does not occur has no records. |
| AnalysisResults.GroupSizesAddOne | apk-tools-client/components/analysis-results.tsx:56-73 | One more record adds exactly one to the sum of the group sizes, with a new severity joining the keys. |
| AnalysisResults.GroupSizesSumToTotal | apk-tools-client/components/analysis-results.tsx:56-73 | Summed over the distinct severities, the group sizes give `totalIssues`. |
| AnalysisResults.DistinctTypes | apk-tools-client/components/analysis-results.tsx:124 | Each type once, every type present, nothing else, in order of first occurrence. |
| AnalysisResults.StripTags | apk-tools-client/components/analysis-results.tsx:194 | Removing the tags never lengthens the text. |
| AnalysisResults.AndroidSmaliShadowed | apk-tools-client/components/analysis-results.tsx:194 | Wherever "android-smali-" starts, "android-" also starts, so the first alternative wins. |
| AnalysisResults.DashesToSpaces | apk-tools-client/components/analysis-results.tsx:194 | Every "-" becomes a space, and nothing else changes. |
| AnalysisResults.Normalise | apk-tools-client/components/analysis-results.tsx:194 | The label has no "-" and is no longer than the type. |
| AnalysisResults.StripTagsDashFree | apk-tools-client/components/analysis-results.tsx:194 | Text without "-" has no tag to remove. |
| AnalysisResults.DashFreeLabelUnchanged | apk-tools-client/components/analysis-results.tsx:194 | A type without "-" is displayed as it is. |
| AnalysisResults.ShortUntouched | apk-tools-client/components/analysis-results.tsx:194 | Text shorter than both tags is left as it is. |
| AnalysisResults.AndroidSmaliLabel | apk-tools-client/components/analysis-results.tsx:194 | "android-smali-x" is displayed as "smali x". |
| Files.FileSystem.Unlink | apk-tools-server/src/index.ts:141 | Removes exactly the given file. |
| Files.FileSystem.Rmdir | apk-tools-server/src/index.ts:139 | Removes exactly the given empty directory. |
| Files.FileSystem.WriteFile | apk-tools-server/src/index.ts:91-97 | Writes exactly that file, into an existing directory. |
| Files.Cleanup | apk-tools-server/src/index.ts:127-147 | Everything inside an existing directory is removed and everything else is kept. A missing directory, or a file, is left alone. The tree stays well formed. |
| Files.RemoveEntry | apk-tools-server/src/index.ts:134-142 | One entry of the listing is removed with everything inside it. A directory is emptied first. |
| Files.Purged | apk-tools-server/src/index.ts:127-147 | The reference result of `cleanupDirectory`. `Cleanup` is proved to produce it, and `PurgeIdempotent`, `PurgeKeepsOutside` and `PurgeEmpties` state its properties. |
| Files.PurgeIdempotent | apk-tools-server/src/index.ts:127-147 | Cleaning a directory twice is cleaning it once. |
| Files.PurgeKeepsOutside | apk-tools-server/src/index.ts:127-147 | Nothing outside the directory is touched. |
| Files.PurgeEmpties | apk-tools-server/src/index.ts:127-147 | The directory remains, and is empty. |
| Server.Tools | apk-tools-server/src/index.ts:31-59 | The tools table. `ToolsTable` states its keys and fields. |
| Server.ToolsTable | apk-tools-server/src/index.ts:31-59 | Exactly two tools. Each has its own input and output directory, and neither contains the other. Only ReconizeX has the fallback `nuk.txt` and gets the file name. |
| Server.ResultPath | apk-tools-server/src/index.ts:40-56 | The result path always lies inside the tool's output directory. |
| Server.ApkFolderName | apk-tools-server/src/index.ts:40-44 | ReconizeX's folder is the file name with its first ".apk" removed, so "a.apk.apk" gives "a.apk". |
| Server.FolderOfOtherName | apk-tools-server/src/index.ts:40-44 | A name without ".apk" is used as the folder unchanged. |
| Server.FlatResultPath | apk-tools-server/src/index.ts:53-56 | SecureApk's result path does not depend on the file name. |
| Server.ApkFileFilter | apk-tools-server/src/index.ts:82-87 | The upload filter. `FilterKeepsApks` states when it keeps a file. |
| Server.FilterKeepsApks | apk-tools-server/src/index.ts:82-87 | A file is kept iff its type is the APK MIME type or its name ends with ".apk". |
| Server.Admit | apk-tools-server/src/index.ts:91-106 | What multer hands on: the filter first, then the size limit. `AdmitStoresIff` states when a file is stored. |
| Server.AdmitStoresIff | apk-tools-server/src/index.ts:82-106 | An upload is stored, under its original name, iff the filter keeps it and it is at most 100 MB. A file over the limit gets the size error. |
| Server.WidgetAcceptedIsStored | apk-tools-server/src/index.ts:82-106 | A file the widget accepts under its default 100 MB limit is stored, whatever its reported type. |
| Server.ErrorResponse | apk-tools-server/src/index.ts:115-124 | The error handler always answers with a failure. |
| Server.ErrorStatusDefault | apk-tools-server/src/index.ts:115-124 | A non-zero status is kept, and a missing or 0 status gives 500. An empty message gives "Internal Server Error". |
| Server.Arch | apk-tools-server/src/index.ts:162 | The tag is "arm64" iff the host is arm64, and "amd64" otherwise. |
| Server.DockerCommand | apk-tools-server/src/index.ts:161-167 | The command starts with the base `docker run` command. A tool that takes the file name gets exactly " " and the name after it. A tool without `commandArgs` gets the base command and nothing more. |
| Server.DockerCommandText | apk-tools-server/src/index.ts:161-167 | The command in full: the input directory mounted on `/input`, the output directory on `/output`, the image tagged with the architecture, then " " and the file name exactly for a tool that takes it. |
| Server.CommandIgnoresFilename | apk-tools-server/src/index.ts:163-167 | A tool that does not take the file name runs the same command for every upload. |
| Server.Classify | apk-tools-server/src/index.ts:169-187 | How a container run ended. `ClassifyCases` states each outcome. |
| Server.ClassifyCases | apk-tools-server/src/index.ts:169-187 | Complete iff the container succeeded. Partial iff the tool has a fallback and the error code is the buffer overflow. Otherwise failed. |
| Server.ResultFileFor | apk-tools-server/src/index.ts:190-197 | The main result file is read unless the run was partial. |
| Server.Outcome | apk-tools-server/src/index.ts:169-227 | A failed run gives 500 "Failed to analyze APK with <tool>". A success names the tool and the file. `completed` is present iff the tool has a fallback, and is true iff the run was complete. Every failure is 500. |
| Server.OutcomeReadsResult | apk-tools-server/src/index.ts:190-227 | After a run, the answer is a success iff the chosen result file exists as a file. The results are its contents. Otherwise the answer is 500 "Failed to read analysis results from <tool>". |
| Server.ReconizexPartial | apk-tools-server/src/index.ts:172-220 | A ReconizeX buffer overflow answers from `nuk.txt` with `completed` false. |
| Server.SecureApkOverflowFails | apk-tools-server/src/index.ts:172-187 | A SecureApk buffer overflow is a failed analysis. |
| Server.RunContainer | apk-tools-server/src/index.ts:171 | The container's writes land in the tree, which stays well formed. |
| Server.HandleAnalysis | apk-tools-server/src/index.ts:149-232 | No file: 400 "No APK file provided or invalid file type", with nothing touched and nothing run. Otherwise the output directory is cleaned before the run. The answer is `Outcome` on the state the container leaves. The input directory is cleaned only on success. The command run is `DockerCommand`. |
| Server.ReadResults | apk-tools-server/src/index.ts:190-227 | Reads the fallback file exactly after a partial run. The answer is `Outcome`. The input directory is cleaned iff the answer is a success. |
| Server.Endpoint | apk-tools-server/src/index.ts:236-240 | An oversized file gives 500 and no file gives 400, both with nothing touched. A stored file gets the handler's answer on the state after storage, cleaning and the run. |
| Server.StoreAndAnalyse | apk-tools-server/src/index.ts:91-97 | The upload is written to the input directory under its original name before the handler runs. |
| Server.UploadRemovedOnlyOnSuccess | apk-tools-server/src/index.ts:204-209 | After a failure the stored APK is still in the input directory. After a success it is gone. |
| Server.OutputPurgeKeepsInput | apk-tools-server/src/index.ts:160 | Cleaning a tool's output directory never touches an upload in its input directory. |
| Server.UploadOutsideOutput | apk-tools-server/src/index.ts:31-59 | An upload, and the input directory itself, lie outside the tool's output directory. |
| FileUpload.NatToString | apk-tools-client/components/file-upload.tsx:36 | The printed limit is all decimal digits, with no leading zero. |
| FileUpload.NatToStringValue | apk-tools-client/components/file-upload.tsx:36 | The printed digits read back as the limit. |
| FileUpload.TooLargeMessageNamesLimit | apk-tools-client/components/file-upload.tsx:36 | The size message states the limit it applies. |
| FileUpload.Validate | apk-tools-client/components/file-upload.tsx:27-41 | `validateFile`'s decision and error. `ValidateCases` states when a file is accepted and which error a rejection sets. |
| FileUpload.ValidateCases | apk-tools-client/components/file-upload.tsx:27-41 | A file is accepted iff it is present, ends with ".apk" and is at most maxSize MB, so a file exactly at the limit is accepted. A missing file is rejected without a message. A wrong name gets "Only APK files are allowed" even when the file is also too large. A file that is too large gets the size message. |
| FileUpload.Uploader.constructor | apk-tools-client/components/file-upload.tsx:19-23 | Starts with no file, no upload, no progress and no error. |
| FileUpload.Uploader.Default | apk-tools-client/components/file-upload.tsx:18 | The default limit is 100 MB. |
| FileUpload.Uploader.ValidateFile | apk-tools-client/components/file-upload.tsx:27-41 | Returns true iff the file is accepted. Sets the error of a rejection that has one, and touches nothing else. |
| FileUpload.Uploader.HandleFileChange | apk-tools-client/components/file-upload.tsx:43-52 | The error is cleared, then set to the rejection's message if any. An accepted file is taken, with uploading true and progress 0. A rejected file leaves the file, uploading and progress unchanged. |
| FileUpload.Uploader.HandleRemoveFile | apk-tools-client/components/file-upload.tsx:113-121 | No file, progress 0, not uploading; the error is kept. |
| OptionsSection.Without | apk-tools-client/components/options-section.tsx:24 | The id is gone, every other id keeps its membership, and the list never grows. |
| OptionsSection.WithoutAppend | apk-tools-client/components/options-section.tsx:24 | The filter keeps the order of the other ids: it distributes over concatenation. |
| OptionsSection.WithoutCounts | apk-tools-client/components/options-section.tsx:24 | Every occurrence of the id is removed, and every other id keeps its number of occurrences. |
| OptionsSection.WithoutAbsent | apk-tools-client/components/options-section.tsx:24 | A list without the id is unchanged. |
| OptionsSection.NewSelection | apk-tools-client/components/options-section.tsx:22-24 | Checking appends the id at the end and keeps the rest. Unchecking filters it out. |
| OptionsSection.HandleOptionChange | apk-tools-client/components/options-section.tsx:21-28 | `onChange` receives exactly the new state. The changed option is checked iff `checked`. Every other option keeps its status. |
| OptionsSection.CheckTwiceDuplicates | apk-tools-client/components/options-section.tsx:23 | Checking an id already checked lists it one more time, with no de-duplication. |
| OptionsSection.UncheckUndoesCheck | apk-tools-client/components/options-section.tsx:22-24 | Unchecking right after checking an unchecked id restores the list. |
| OptionsSection.IsChecked | apk-tools-client/components/options-section.tsx:41 | A checkbox is ticked iff its id is in the selection. `HandleOptionChange` and `CheckedIffLastChecked` state how changes affect it. |
| OptionsSection.CheckedIffLastChecked | apk-tools-client/components/options-section.tsx:19-41 | From the initial empty selection, after any series of changes, an option is shown checked iff its last change was a check. |

## Left out

- Rendering: all JSX, icons, colours, tabs, accordions and "show more" summaries are presentation only.
- The simulated upload progress timer in `file-upload.tsx` and the progress view: they are driven by timers and make no decisions.
- Drag-and-drop and the file-input reset in `handleRemoveFile`: these are DOM plumbing. The drop handler only forwards the first file to `handleFileChange`, which is modelled.
- The page components, `data/tools.ts` and the navigation and card components: they are fetch calls, a static catalog and UI.
- The container itself: what it writes and how it ends are parameters of `Server.HandleAnalysis`. Docker, `exec` and the 10 MB buffer are not modelled.
- `Server.RunContainer`: the container is assumed to only add entries, and only below the tool's output directory (`Server.WritesInto`). The real command mounts the input directory read-write as well, and nothing in the server stops the container from changing or removing files there. `Server.UploadRemovedOnlyOnSuccess` holds under that assumption.
- `Server.Endpoint`: the uploaded bytes are a parameter. multer's partial write of an oversized file, which multer removes again, is not modelled.
- `Server.Endpoint`: the text of multer's size error is taken to be "File too large". It comes from multer, which is not part of this model.
- Node's `path.join` normalisation and the process's `__dirname`: paths are sequences of names, and the tools directory is a parameter.
- `Files.Cleanup`: `statSync` failures, symbolic links and errors in the middle of a cleanup are not modelled. The model covers the missing-directory and not-a-directory cases. The order of `readdirSync` does not affect the result, so any order is allowed.
- `ensureDirectories` is not modelled as an operation. Its effect, that both directories of every tool exist, is a precondition of `Server.HandleAnalysis` and `Server.Endpoint`.
- Concurrency: the model handles one request at a time. Two uploads to the same tool at once would share its directories.
- The server's logging and the client's `console` output.
- `FileUpload.Uploader.HandleFileChange`: React batches state updates, so the model applies each handler's updates in order as one step.
- `FileUpload.Validate`: `maxSize` is modelled as a whole number of MB. A fractional or negative prop is not modelled.
- `SecureApk.DetermineSeverity`: `toLowerCase` is modelled for ASCII letters only. The keywords are ASCII.
- Strings are sequences of code points, whereas JavaScript counts UTF-16 units. For the markers used here, `substring(4)` agrees for characters of the Basic Multilingual Plane.
- `AnalysisResults.Search`: only the one pattern is modelled, by an exact backtracking search. There is no general regular-expression engine.
- `Server.ToolsTable`: the fallback file is modelled as present or absent. JavaScript would also treat an empty name as absent, and no tool has one.
