/** The secureAPK result view (apk-tools-client/components/secureapk-results.tsx):
    a single pass over the lines of the scanner's narrative log that collects
    the vulnerabilities it reports and one report per native library (`.so`)
    it analysed, with a keyword classifier for the severity of a vulnerability.

    `Step` is the transition function of the line-oriented state machine and
    `Parse` its specification over a whole text; the method `ParseResults` is the
    loop of the source, with the native-library reports as objects that the loop
    updates in place, proved to compute `Parse`. */
module SecureApk {
  import opened Wrappers
  import opened JsString
  import Seqs

  datatype Severity = Critical | High | Medium | Low | Info

  /** A vulnerability; `kind` is the source's `type`. The source always sets
      `line` (to "" when the log gives none); `risk` is present only when the
      vulnerability was completed by its risk line. */
  datatype Vulnerability = Vulnerability(
    kind: string, file: string, line: string, details: string,
    risk: Option<string>, severity: Severity)

  datatype NativeIssue = NativeIssue(kind: string, details: string, severity: Severity)

  datatype SoFileAnalysis = SoFileAnalysis(file: string, issues: seq<NativeIssue>)

  datatype Findings = Findings(vulnerabilities: seq<Vulnerability>, soFiles: seq<SoFileAnalysis>)

  /** The state of the pass: what has been emitted so far, and the vulnerability
      waiting for its risk line. The source's `currentSoFile` is always the last
      element of `soFiles` (null while there is none), so it is not kept apart. */
  datatype ParserState = ParserState(
    vulns: seq<Vulnerability>, soFiles: seq<SoFileAnalysis>, pending: Option<Vulnerability>)

  const ANALYZING := "[+] Analyzing "
  const WARNING := "[\U{26A0}]"
  const CHECK := "[\U{2713}]"
  const HEAVY_CHECK := "[\U{2714}]"
  const ALERT := "[!]"
  const SCHEMA_URL := "http://schemas.android.com/"
  const DETECTED_IN := " detected in "
  const LINE_OPEN := " (line "
  const LINE_CLOSE := "): "
  const RISK := "\U{2514} Exploitation Risk:"
  const FOUND := "[+] Found"

  // ---------------------------------------------------------------- severity

  predicate CriticalKeyword(lower: string) {
    Contains(lower, "private key") || Contains(lower, "password")
    || Contains(lower, "token") || Contains(lower, "sql injection")
  }

  predicate HighKeyword(lower: string) {
    Contains(lower, "hardcoded") || Contains(lower, "insecure") || Contains(lower, "weak")
  }

  predicate MediumKeyword(lower: string) {
    Contains(lower, "debug") || Contains(lower, "obfuscated")
  }

  predicate LowKeyword(lower: string) {
    Contains(lower, "http url")
  }

  /** `determineSeverity`: keyword classes are tried in a fixed priority order on
      the lower-cased type; "medium" when none matches; never "info". */
  function DetermineSeverity(kind: string): (s: Severity)
    ensures s != Info
    ensures s == Critical <==> CriticalKeyword(ToLower(kind))
    ensures s == High <==> !CriticalKeyword(ToLower(kind)) && HighKeyword(ToLower(kind))
    ensures s == Low <==>
      !CriticalKeyword(ToLower(kind)) && !HighKeyword(ToLower(kind))
      && !MediumKeyword(ToLower(kind)) && LowKeyword(ToLower(kind))
  {
    var lower := ToLower(kind);
    if CriticalKeyword(lower) then Critical
    else if HighKeyword(lower) then High
    else if MediumKeyword(lower) then Medium
    else if LowKeyword(lower) then Low
    else Medium
  }

  /** The number of vulnerabilities of one severity (`criticalCount`, ...). */
  function CountOf(vs: seq<Vulnerability>, sev: Severity): (n: nat)
    ensures n <= |vs|
  {
    if vs == [] then 0
    else CountOf(vs[..|vs| - 1], sev) + (if vs[|vs| - 1].severity == sev then 1 else 0)
  }

  predicate NoInfo(vs: seq<Vulnerability>) {
    forall k :: 0 <= k < |vs| ==> vs[k].severity != Info
  }

  /** When no vulnerability is "info", the four badge counts add up to the total. */
  lemma {:induction false} CountsSumToTotal(vs: seq<Vulnerability>)
    requires NoInfo(vs)
    ensures CountOf(vs, Critical) + CountOf(vs, High) + CountOf(vs, Medium) + CountOf(vs, Low) == |vs|
  {
    if vs != [] {
      CountsSumToTotal(vs[..|vs| - 1]);
    }
  }

  /** `soIssuesCount`: the number of native issues over all reports. */
  function SoIssuesCount(reports: seq<SoFileAnalysis>): nat {
    if reports == [] then 0
    else SoIssuesCount(reports[..|reports| - 1]) + |reports[|reports| - 1].issues|
  }

  /** `vulnerabilityTypes`: each vulnerability type once, in first-occurrence order. */
  function VulnerabilityTypes(vs: seq<Vulnerability>): (r: seq<string>)
    ensures Seqs.DistinctOf(seq(|vs|, k requires 0 <= k < |vs| => vs[k].kind), r)
    ensures forall k :: 0 <= k < |vs| ==> vs[k].kind in r
    ensures forall t :: t in r ==> exists k :: 0 <= k < |vs| && vs[k].kind == t
  {
    var kinds := seq(|vs|, k requires 0 <= k < |vs| => vs[k].kind);
    var r := Seqs.Distinct(kinds);
    forall k | 0 <= k < |vs| ensures vs[k].kind in r {
      assert kinds[k] == vs[k].kind;
    }
    forall t | t in r ensures exists k :: 0 <= k < |vs| && vs[k].kind == t {
      var k := Seqs.FirstIndex(kinds, t);
    }
    r
  }

  // ---------------------------------------------------------------- lines

  /** Lines skipped before anything else: blank, divider and banner lines. */
  predicate Skipped(line: string) {
    || line == "" || StartsWith(line, "---")
    || Contains(line, "Searching for vulnerabilities")
    || Contains(line, "Analysis completed in") || Contains(line, "Analysis finished in")
  }

  /** The `[+] Analyzing <lib>.so...` line that opens a native-library report. */
  predicate IsSoHeader(line: string) {
    StartsWith(line, ANALYZING) && Contains(line, ".so")
  }

  /** The library named by a report header: the header without its first
      `[+] Analyzing ` and without its first `...`. */
  function SoFileName(line: string): string {
    ReplaceFirst(ReplaceFirst(line, ANALYZING, ""), "...", "")
  }

  predicate IsIssueLine(line: string) {
    StartsWith(line, WARNING) || StartsWith(line, CHECK) || StartsWith(line, HEAVY_CHECK)
  }

  /** The native issue a `[⚠]`/`[✓]`/`[✔]` line adds, or `None` for the
      completion messages that add none. */
  function NativeIssueOf(line: string): (r: Option<NativeIssue>)
    ensures r.Some? ==> r.value.details == Trim(Substring(line, 4))
    ensures r.Some? && Contains(r.value.details, ":") ==>
      r.value.kind == Trim(r.value.details[..IndexOf(r.value.details, ":").value])
    ensures r.Some? && !Contains(r.value.details, ":") ==> r.value.kind == Trim(r.value.details)
    ensures r.Some? ==> (r.value.severity == Medium <==> StartsWith(line, WARNING))
    ensures r.Some? ==> (r.value.severity == Info <==> !StartsWith(line, WARNING))
    ensures r.None? <==>
      Contains(line, "Analysis complete") || Contains(Trim(Substring(line, 4)), "Analysis finished")
  {
    if Contains(line, "Analysis complete") then None
    else
      var severity := if StartsWith(line, WARNING) then Medium else Info;
      var details := Trim(Substring(line, 4));
      if Contains(details, "Analysis finished") then None
      else Some(NativeIssue(Trim(Split(details, ":")[0]), details, severity))
  }

  /** The vulnerability an `[!]` line starts, `[!] <type> detected in <file>
      (line <n>): <details>`, or `None` for schema-URL false positives and for
      lines without ` detected in `. */
  function AlertLine(line: string): (r: Option<Vulnerability>)
    ensures r.None? <==> Contains(line, SCHEMA_URL) || !Contains(Substring(line, 4), DETECTED_IN)
    ensures r.Some? ==> r.value.risk.None? && r.value.severity == DetermineSeverity(r.value.kind)
    ensures r.Some? ==>
      IsTrimmed(r.value.kind) && IsTrimmed(r.value.file)
      && IsTrimmed(r.value.line) && IsTrimmed(r.value.details)
  {
    if Contains(line, SCHEMA_URL) then None
    else
      var parts := Split(Substring(line, 4), DETECTED_IN);
      if |parts| < 2 then None
      else
        var kind := Trim(parts[0]);
        var fileInfo := Split(parts[1], LINE_OPEN);
        var file := Trim(fileInfo[0]);
        var (lineNumber, details) :=
          if |fileInfo| > 1 then
            var lineAndDetails := Split(fileInfo[1], LINE_CLOSE);
            (Trim(lineAndDetails[0]), if |lineAndDetails| > 1 then Trim(lineAndDetails[1]) else "")
          else ("", "");
        Some(Vulnerability(kind, file, lineNumber, details, None, DetermineSeverity(kind)))
  }

  /** The risk note of an `└ Exploitation Risk:` line. */
  function RiskText(line: string): (r: string)
    ensures StartsWith(line, RISK) ==> r == Trim(line[|RISK|..])
  {
    var rest := ReplaceFirst(line, RISK, "");
    assert StartsWith(line, RISK) ==> rest == "" + line[|RISK|..] == line[|RISK|..];
    Trim(rest)
  }

  predicate IsFoundHeader(line: string) {
    StartsWith(line, FOUND) && Contains(line, ".so files")
  }

  // ---------------------------------------------------------------- the pass

  /** Adds an issue to the last report (the one `currentSoFile` aliases). */
  function AppendIssue(reports: seq<SoFileAnalysis>, issue: NativeIssue): (r: seq<SoFileAnalysis>)
    requires reports != []
    ensures |r| == |reports| && r[..|r| - 1] == reports[..|reports| - 1]
    ensures forall k :: 0 <= k < |r| - 1 ==> r[k] == reports[k]
    ensures r[|r| - 1].file == reports[|reports| - 1].file
    ensures r[|r| - 1].issues == reports[|reports| - 1].issues + [issue]
  {
    var last := reports[|reports| - 1];
    reports[..|reports| - 1] + [last.(issues := last.issues + [issue])]
  }

  /** Emits the pending vulnerability, if any, without a risk. */
  function Flush(st: ParserState): ParserState {
    match st.pending
    case None => st
    case Some(v) => st.(vulns := st.vulns + [v], pending := None)
  }

  const Start := ParserState([], [], None)

  /** One iteration of the loop of `parseResults` on the raw line `raw`. */
  function Step(st: ParserState, raw: string): ParserState {
    var line := Trim(raw);
    if Skipped(line) then st
    else if IsSoHeader(line) then
      st.(soFiles := st.soFiles + [SoFileAnalysis(SoFileName(line), [])])
    else if st.soFiles != [] && IsIssueLine(line) then AddIssue(st, NativeIssueOf(line))
    else VulnerabilityStep(st, line)
  }

  /** An issue line with a report open: the issue it carries, if any, goes
      into the last report. */
  function AddIssue(st: ParserState, issue: Option<NativeIssue>): ParserState
    requires st.soFiles != []
  {
    match issue
    case None => st
    case Some(i) => st.(soFiles := AppendIssue(st.soFiles, i))
  }

  /** The rest of an iteration, for a trimmed line that is neither skipped nor
      about a native library: alert lines, risk lines and everything else. */
  function VulnerabilityStep(st: ParserState, line: string): (r: ParserState)
    ensures r.soFiles == st.soFiles
  {
    if StartsWith(line, ALERT) then
      match AlertLine(line)
      case None => st
      case Some(v) => st.(pending := Some(v))
    else if StartsWith(line, RISK) && st.pending.Some? then
      st.(vulns := st.vulns + [st.pending.value.(risk := Some(RiskText(line)))], pending := None)
    else if IsFoundHeader(line) then st
    else Flush(st)
  }

  /** The branches of `Step`, one lemma each. */
  lemma StepSkips(st: ParserState, raw: string)
    requires Skipped(Trim(raw))
    ensures Step(st, raw) == st
  {
  }

  lemma StepOpens(st: ParserState, raw: string)
    requires !Skipped(Trim(raw)) && IsSoHeader(Trim(raw))
    ensures Step(st, raw) == st.(soFiles := st.soFiles + [SoFileAnalysis(SoFileName(Trim(raw)), [])])
  {
  }

  lemma StepIssue(st: ParserState, raw: string)
    requires !Skipped(Trim(raw)) && !IsSoHeader(Trim(raw)) && st.soFiles != [] && IsIssueLine(Trim(raw))
    ensures Step(st, raw) == AddIssue(st, NativeIssueOf(Trim(raw)))
  {
  }

  lemma StepDelegates(st: ParserState, raw: string)
    requires !Skipped(Trim(raw)) && !IsSoHeader(Trim(raw)) && !(st.soFiles != [] && IsIssueLine(Trim(raw)))
    ensures Step(st, raw) == VulnerabilityStep(st, Trim(raw))
  {
  }

  /** The state after the loop has run over `lines`. */
  function Run(lines: seq<string>): ParserState {
    if lines == [] then Start else Step(Run(lines[..|lines| - 1]), lines[|lines| - 1])
  }

  /** `parseResults`: the pass over the lines of the text. A vulnerability still
      waiting for its risk line when the text ends is not emitted. */
  function Parse(text: string): (r: Findings)
    ensures text == "" ==> r == Findings([], [])
  {
    if text == "" then Findings([], [])
    else
      var st := Run(Split(text, "\n"));
      Findings(st.vulns, st.soFiles)
  }

  // ---------------------------------------------------------------- the loop

  /** The reports `objs` hold exactly the values `reports`. */
  predicate Mirrors(objs: seq<SoReport>, reports: seq<SoFileAnalysis>)
    reads objs
  {
    |objs| == |reports|
    && forall k :: 0 <= k < |objs| ==> objs[k].file == reports[k].file && objs[k].issues == reports[k].issues
  }

  /** A native-library report, updated in place through `currentSoFile`. */
  class SoReport {
    const file: string
    var issues: seq<NativeIssue>

    constructor (file: string)
      ensures this.file == file && issues == []
    {
      this.file := file;
      issues := [];
    }
  }

  /** The loop's variables hold the state `st`: `currentSoFile` aliases the
      last report, and the reports are distinct objects holding `st.soFiles`. */
  predicate Holds(st: ParserState, vulnerabilities: seq<Vulnerability>, soFiles: seq<SoReport>,
                  currentSoFile: SoReport?, currentVulnerability: Option<Vulnerability>)
    reads soFiles
  {
    && vulnerabilities == st.vulns
    && currentVulnerability == st.pending
    && Mirrors(soFiles, st.soFiles)
    && Seqs.NoDuplicates(soFiles)
    && (currentSoFile == null <==> soFiles == [])
    && (currentSoFile != null ==> currentSoFile == soFiles[|soFiles| - 1])
  }

  /** `currentSoFile.issues.push(issue)`: the push is seen through `soFiles`,
      whose last element `currentSoFile` is. */
  method PushIssue(issue: NativeIssue, ghost reports: seq<SoFileAnalysis>,
                   soFiles: seq<SoReport>, currentSoFile: SoReport)
    requires Mirrors(soFiles, reports) && Seqs.NoDuplicates(soFiles)
    requires soFiles != [] && currentSoFile == soFiles[|soFiles| - 1]
    modifies currentSoFile
    ensures Mirrors(soFiles, AppendIssue(reports, issue))
  {
    ghost var n := |soFiles|;
    ghost var after := AppendIssue(reports, issue);
    currentSoFile.issues := currentSoFile.issues + [issue];
    assert soFiles[n - 1].issues == after[n - 1].issues;
    forall k | 0 <= k < n - 1
      ensures soFiles[k].file == after[k].file && soFiles[k].issues == after[k].issues
    {
      assert soFiles[k] != currentSoFile;
    }
  }

  /** The body of the loop of `parseResults` for one raw line. */
  method ParseLine(raw: string, ghost st: ParserState,
                   vulnerabilities: seq<Vulnerability>, soFiles: seq<SoReport>,
                   currentSoFile: SoReport?, currentVulnerability: Option<Vulnerability>)
    returns (vulnerabilities': seq<Vulnerability>, soFiles': seq<SoReport>,
             currentSoFile': SoReport?, currentVulnerability': Option<Vulnerability>)
    requires Holds(st, vulnerabilities, soFiles, currentSoFile, currentVulnerability)
    modifies currentSoFile
    ensures Holds(Step(st, raw), vulnerabilities', soFiles', currentSoFile', currentVulnerability')
    ensures forall k :: 0 <= k < |soFiles'| ==> soFiles'[k] in soFiles || fresh(soFiles'[k])
  {
    vulnerabilities', soFiles', currentSoFile', currentVulnerability' :=
      vulnerabilities, soFiles, currentSoFile, currentVulnerability;
    var line := Trim(raw);
    if Skipped(line) {
      StepSkips(st, raw);
      return;
    }
    if StartsWith(line, ANALYZING) && Contains(line, ".so") {
      var file := ReplaceFirst(ReplaceFirst(line, ANALYZING, ""), "...", "");
      StepOpens(st, raw);
      soFiles', currentSoFile' := OpenReport(file, st, vulnerabilities, soFiles, currentSoFile, currentVulnerability);
      return;
    }
    if currentSoFile != null && IsIssueLine(line) {
      var issue := NativeIssueOf(line);
      StepIssue(st, raw);
      AddIssueTo(issue, st, vulnerabilities, soFiles, currentSoFile, currentVulnerability);
      return;
    }
    StepDelegates(st, raw);
    vulnerabilities', currentVulnerability' :=
      ParseVulnerabilityLine(line, st, vulnerabilities, currentVulnerability);
  }

  /** A report header: a new report becomes `currentSoFile`. */
  method OpenReport(file: string, ghost st: ParserState,
                    vulnerabilities: seq<Vulnerability>, soFiles: seq<SoReport>,
                    currentSoFile: SoReport?, currentVulnerability: Option<Vulnerability>)
    returns (soFiles': seq<SoReport>, currentSoFile': SoReport)
    requires Holds(st, vulnerabilities, soFiles, currentSoFile, currentVulnerability)
    ensures fresh(currentSoFile') && soFiles' == soFiles + [currentSoFile']
    ensures Holds(st.(soFiles := st.soFiles + [SoFileAnalysis(file, [])]),
                  vulnerabilities, soFiles', currentSoFile', currentVulnerability)
  {
    currentSoFile' := new SoReport(file);
    soFiles' := soFiles + [currentSoFile'];
  }

  /** An issue line while a report is open: its issue, if any, is pushed
      through `currentSoFile`. */
  method AddIssueTo(issue: Option<NativeIssue>, ghost st: ParserState,
                    vulnerabilities: seq<Vulnerability>, soFiles: seq<SoReport>,
                    currentSoFile: SoReport?, currentVulnerability: Option<Vulnerability>)
    requires Holds(st, vulnerabilities, soFiles, currentSoFile, currentVulnerability)
    requires currentSoFile != null
    modifies currentSoFile
    ensures st.soFiles != []
    ensures Holds(AddIssue(st, issue), vulnerabilities, soFiles, currentSoFile, currentVulnerability)
  {
    if issue.Some? {
      PushIssue(issue.value, st.soFiles, soFiles, currentSoFile);
    }
  }

  /** The part of the loop body that reads alert and risk lines. */
  method ParseVulnerabilityLine(line: string, ghost st: ParserState,
                                vulnerabilities: seq<Vulnerability>, currentVulnerability: Option<Vulnerability>)
    returns (vulnerabilities': seq<Vulnerability>, currentVulnerability': Option<Vulnerability>)
    requires vulnerabilities == st.vulns && currentVulnerability == st.pending
    ensures vulnerabilities' == VulnerabilityStep(st, line).vulns
    ensures currentVulnerability' == VulnerabilityStep(st, line).pending
  {
    vulnerabilities', currentVulnerability' := vulnerabilities, currentVulnerability;
    if StartsWith(line, ALERT) {
      var v := AlertLine(line);
      if v.Some? {
        currentVulnerability' := v;
      }
      return;
    }
    if StartsWith(line, RISK) && currentVulnerability.Some? {
      var risk := Trim(ReplaceFirst(line, RISK, ""));
      vulnerabilities' := vulnerabilities + [currentVulnerability.value.(risk := Some(risk))];
      currentVulnerability' := None;
      return;
    }
    if StartsWith(line, FOUND) && Contains(line, ".so files") {
      return;
    }
    if currentVulnerability.Some? {
      vulnerabilities' := vulnerabilities + [currentVulnerability.value];
      currentVulnerability' := None;
    }
  }

  /** `parseResults` as the source runs it: a loop over the lines with the
      mutable `currentSoFile` and `currentVulnerability`, pushing issues into the
      last report through the `currentSoFile` alias. */
  method ParseResults(text: string) returns (vulnerabilities: seq<Vulnerability>, soFiles: seq<SoReport>)
    ensures vulnerabilities == Parse(text).vulnerabilities
    ensures Mirrors(soFiles, Parse(text).soFiles)
  {
    vulnerabilities, soFiles := [], [];
    if text == "" {
      return;
    }
    vulnerabilities, soFiles := ParseLines(Split(text, "\n"));
  }

  /** The loop of `parseResults` over the lines of a non-empty text. */
  method ParseLines(lines: seq<string>) returns (vulnerabilities: seq<Vulnerability>, soFiles: seq<SoReport>)
    ensures vulnerabilities == Run(lines).vulns
    ensures Mirrors(soFiles, Run(lines).soFiles)
  {
    vulnerabilities, soFiles := [], [];
    var currentSoFile: SoReport? := null;
    var currentVulnerability: Option<Vulnerability> := None;
    ghost var st := Start;
    for i := 0 to |lines|
      invariant st == Run(lines[..i])
      invariant Holds(st, vulnerabilities, soFiles, currentSoFile, currentVulnerability)
      invariant forall k :: 0 <= k < |soFiles| ==> fresh(soFiles[k])
    {
      RunSnoc(lines, i);
      vulnerabilities, soFiles, currentSoFile, currentVulnerability :=
        ParseLine(lines[i], st, vulnerabilities, soFiles, currentSoFile, currentVulnerability);
      st := Step(st, lines[i]);
    }
    assert lines[..|lines|] == lines;
  }

  // ---------------------------------------------------------------- properties

  /** Two prefixes that differ at index `k` cannot both start a line. */
  lemma PrefixesDiffer(line: string, p: string, q: string, k: nat)
    requires k < |p| && k < |q| && p[k] != q[k]
    ensures !(StartsWith(line, p) && StartsWith(line, q))
  {
    if StartsWith(line, p) {
      assert line[k] == line[..|p|][k] == p[k];
    }
    if StartsWith(line, q) {
      assert line[k] == line[..|q|][k] == q[k];
    }
  }

  /** The line kinds the pass tells apart by their first characters are disjoint. */
  lemma LineKindsDisjoint(line: string)
    ensures IsIssueLine(line) ==> !StartsWith(line, ANALYZING) && !StartsWith(line, ALERT)
                                  && !StartsWith(line, RISK) && !StartsWith(line, FOUND)
    ensures StartsWith(line, ALERT) ==> !StartsWith(line, ANALYZING) && !IsIssueLine(line)
    ensures StartsWith(line, RISK) ==> !StartsWith(line, ANALYZING) && !IsIssueLine(line)
                                       && !StartsWith(line, ALERT) && !StartsWith(line, FOUND)
    ensures StartsWith(line, FOUND) ==> !StartsWith(line, ANALYZING) && !IsIssueLine(line)
                                        && !StartsWith(line, ALERT)
  {
    PrefixesDiffer(line, WARNING, ANALYZING, 1);
    PrefixesDiffer(line, CHECK, ANALYZING, 1);
    PrefixesDiffer(line, HEAVY_CHECK, ANALYZING, 1);
    PrefixesDiffer(line, WARNING, ALERT, 1);
    PrefixesDiffer(line, CHECK, ALERT, 1);
    PrefixesDiffer(line, HEAVY_CHECK, ALERT, 1);
    PrefixesDiffer(line, WARNING, RISK, 0);
    PrefixesDiffer(line, CHECK, RISK, 0);
    PrefixesDiffer(line, HEAVY_CHECK, RISK, 0);
    PrefixesDiffer(line, WARNING, FOUND, 1);
    PrefixesDiffer(line, CHECK, FOUND, 1);
    PrefixesDiffer(line, HEAVY_CHECK, FOUND, 1);
    PrefixesDiffer(line, ALERT, ANALYZING, 1);
    PrefixesDiffer(line, RISK, ANALYZING, 0);
    PrefixesDiffer(line, RISK, ALERT, 0);
    PrefixesDiffer(line, RISK, FOUND, 0);
    PrefixesDiffer(line, FOUND, ANALYZING, 4);
    PrefixesDiffer(line, FOUND, ALERT, 1);
  }

  /** Blank, divider and banner lines and the `[+] Found … .so files` header
      change nothing: in particular a pending vulnerability stays pending. */
  lemma NoiseLineKeepsState(st: ParserState, raw: string)
    requires Skipped(Trim(raw)) || IsFoundHeader(Trim(raw))
    ensures Step(st, raw) == st
  {
    LineKindsDisjoint(Trim(raw));
  }

  /** A `[+] Analyzing <lib>.so...` line opens a new, empty report named by the
      rest of the line with its first `...` removed. */
  lemma SoHeaderOpensReport(st: ParserState, raw: string)
    requires !Skipped(Trim(raw)) && IsSoHeader(Trim(raw))
    ensures Step(st, raw) == st.(soFiles := st.soFiles +
      [SoFileAnalysis(ReplaceFirst(Trim(raw)[|ANALYZING|..], "...", ""), [])])
  {
    var line := Trim(raw);
    assert ReplaceFirst(line, ANALYZING, "") == line[|ANALYZING|..];
  }

  /** With a report open, an issue line adds its issue to the last report only. */
  lemma IssueGoesToLastReport(st: ParserState, raw: string, issue: NativeIssue)
    requires !Skipped(Trim(raw)) && IsIssueLine(Trim(raw)) && st.soFiles != []
    requires NativeIssueOf(Trim(raw)) == Some(issue)
    ensures Step(st, raw).vulns == st.vulns && Step(st, raw).pending == st.pending
    ensures Step(st, raw).soFiles == AppendIssue(st.soFiles, issue)
  {
    LineKindsDisjoint(Trim(raw));
  }

  /** Before any report is open, an issue line is an unrecognised line: it
      emits the pending vulnerability, if any, and adds no issue. */
  lemma IssueWithoutReportFlushes(st: ParserState, raw: string)
    requires !Skipped(Trim(raw)) && IsIssueLine(Trim(raw)) && st.soFiles == []
    ensures Step(st, raw) == Flush(st)
  {
    LineKindsDisjoint(Trim(raw));
  }

  /** A schema-URL alert, or one without ` detected in `, changes nothing. */
  lemma IgnoredAlertKeepsState(st: ParserState, raw: string)
    requires !Skipped(Trim(raw)) && StartsWith(Trim(raw), ALERT)
    requires Contains(Trim(raw), SCHEMA_URL) || !Contains(Substring(Trim(raw), 4), DETECTED_IN)
    ensures Step(st, raw) == st
  {
    LineKindsDisjoint(Trim(raw));
  }

  /** An accepted alert becomes the pending vulnerability and emits nothing:
      a vulnerability that was pending before is lost. */
  lemma AlertReplacesPending(st: ParserState, raw: string, v: Vulnerability)
    requires !Skipped(Trim(raw)) && StartsWith(Trim(raw), ALERT)
    requires AlertLine(Trim(raw)) == Some(v)
    ensures Step(st, raw) == st.(pending := Some(v))
  {
    LineKindsDisjoint(Trim(raw));
  }

  /** A risk line completes the pending vulnerability with the trimmed rest of
      the line as its risk and emits it. */
  lemma RiskEmitsPending(st: ParserState, raw: string)
    requires !Skipped(Trim(raw)) && StartsWith(Trim(raw), RISK) && st.pending.Some?
    ensures Step(st, raw) ==
      st.(vulns := st.vulns + [st.pending.value.(risk := Some(RiskText(Trim(raw))))], pending := None)
  {
    var line := Trim(raw);
    LineKindsDisjoint(line);
    assert Step(st, raw) == VulnerabilityStep(st, line);
  }

  /** A risk line with nothing pending changes nothing. */
  lemma RiskWithoutPendingKeepsState(st: ParserState, raw: string)
    requires !Skipped(Trim(raw)) && StartsWith(Trim(raw), RISK) && st.pending.None?
    ensures Step(st, raw) == st
  {
    LineKindsDisjoint(Trim(raw));
  }

  /** Any other line emits the pending vulnerability, without a risk. */
  lemma OtherLineFlushes(st: ParserState, raw: string)
    requires !Skipped(Trim(raw)) && !IsSoHeader(Trim(raw)) && !IsIssueLine(Trim(raw))
    requires !StartsWith(Trim(raw), ALERT) && !StartsWith(Trim(raw), RISK) && !IsFoundHeader(Trim(raw))
    ensures Step(st, raw) == Flush(st)
  {
  }

  /** `"[!] " + "<type> detected in <file> (line <n>): <details>"`: the four
      parts come back as type, file, line and details when each separator first
      occurs where the grammar puts it and the parts carry no surrounding space. */
  lemma {:induction false} AlertLineParts(kind: string, file: string, n: string, details: string)
    requires FirstAfter(kind, DETECTED_IN)
    requires !Contains(file + (LINE_OPEN + (n + (LINE_CLOSE + details))), DETECTED_IN)
    requires FirstAfter(file, LINE_OPEN) && !Contains(n + (LINE_CLOSE + details), LINE_OPEN)
    requires FirstAfter(n, LINE_CLOSE) && !Contains(details, LINE_CLOSE)
    requires IsTrimmed(kind) && IsTrimmed(file) && IsTrimmed(n) && IsTrimmed(details)
    requires !Contains("[!] " + (kind + (DETECTED_IN + (file + (LINE_OPEN + (n + (LINE_CLOSE + details)))))), SCHEMA_URL)
    ensures AlertLine("[!] " + (kind + (DETECTED_IN + (file + (LINE_OPEN + (n + (LINE_CLOSE + details)))))))
         == Some(Vulnerability(kind, file, n, details, None, DetermineSeverity(kind)))
  {
    var tail := n + (LINE_CLOSE + details);
    var rest := file + (LINE_OPEN + tail);
    SubstringAfter("[!] ", kind + (DETECTED_IN + rest));
    SplitTwo(kind, DETECTED_IN, rest);
    SplitTwo(file, LINE_OPEN, tail);
    SplitTwo(n, LINE_CLOSE, details);
    TrimOfTrimmed(kind);
    TrimOfTrimmed(file);
    TrimOfTrimmed(n);
    TrimOfTrimmed(details);
  }

  /** `"[!] <type> detected in <file>"` without ` (line `: line and details are "". */
  lemma {:induction false} AlertLineWithoutLine(kind: string, file: string)
    requires FirstAfter(kind, DETECTED_IN)
    requires !Contains(file, DETECTED_IN) && !Contains(file, LINE_OPEN)
    requires IsTrimmed(kind) && IsTrimmed(file)
    requires !Contains("[!] " + (kind + (DETECTED_IN + file)), SCHEMA_URL)
    ensures AlertLine("[!] " + (kind + (DETECTED_IN + file)))
         == Some(Vulnerability(kind, file, "", "", None, DetermineSeverity(kind)))
  {
    SubstringAfter("[!] ", kind + (DETECTED_IN + file));
    SplitTwo(kind, DETECTED_IN, file);
    SplitNone(file, LINE_OPEN);
    TrimOfTrimmed(kind);
    TrimOfTrimmed(file);
  }

  /** An alert line followed by its risk line yields exactly that vulnerability,
      with the risk. */
  lemma {:induction false} AlertThenRisk(alert: string, risk: string, v: Vulnerability)
    requires !Skipped(Trim(alert)) && StartsWith(Trim(alert), ALERT) && AlertLine(Trim(alert)) == Some(v)
    requires !Skipped(Trim(risk)) && StartsWith(Trim(risk), RISK)
    ensures Run([alert, risk]) == ParserState([v.(risk := Some(RiskText(Trim(risk))))], [], None)
  {
    RunPair(alert, risk);
    AlertReplacesPending(Start, alert, v);
    RiskEmitsPending(Start.(pending := Some(v)), risk);
  }

  /** A second alert before the risk line of the first: the first is lost. */
  lemma {:induction false} SecondAlertLosesFirst(st: ParserState, a1: string, a2: string, v1: Vulnerability, v2: Vulnerability)
    requires !Skipped(Trim(a1)) && StartsWith(Trim(a1), ALERT) && AlertLine(Trim(a1)) == Some(v1)
    requires !Skipped(Trim(a2)) && StartsWith(Trim(a2), ALERT) && AlertLine(Trim(a2)) == Some(v2)
    ensures Step(Step(st, a1), a2) == st.(pending := Some(v2))
  {
    AlertReplacesPending(st, a1, v1);
    AlertReplacesPending(st.(pending := Some(v1)), a2, v2);
  }

  /** After any lines, a final accepted alert only becomes the pending
      vulnerability: it is not among the vulnerabilities. */
  lemma RunEndsWithAlert(lines: seq<string>, a: string, v: Vulnerability)
    requires !Skipped(Trim(a)) && StartsWith(Trim(a), ALERT) && AlertLine(Trim(a)) == Some(v)
    ensures Run(lines + [a]) == Run(lines).(pending := Some(v))
    ensures Run(lines + [a]).vulns == Run(lines).vulns && Run(lines + [a]).soFiles == Run(lines).soFiles
  {
    Seqs.SnocTake(lines, a);
    AlertReplacesPending(Run(lines), a, v);
  }

  /** A text whose last line is an accepted alert gives the findings of the
      lines before it: the vulnerability still waiting for its risk line is
      dropped when the input ends. Every text is such a join of lines without
      line feeds (`Split` gives them back). */
  lemma PendingDroppedAtEnd(lines: seq<string>, a: string, v: Vulnerability)
    requires forall k :: 0 <= k < |lines| ==> !Contains(lines[k], "\n")
    requires !Contains(a, "\n")
    requires !Skipped(Trim(a)) && StartsWith(Trim(a), ALERT) && AlertLine(Trim(a)) == Some(v)
    ensures Parse(Join(lines + [a], "\n")) == Findings(Run(lines).vulns, Run(lines).soFiles)
  {
    ParseOfLines(lines, a);
    RunEndsWithAlert(lines, a, v);
  }

  /** Parsing lines joined by line feeds runs the pass over those lines. */
  lemma ParseOfLines(lines: seq<string>, a: string)
    requires forall k :: 0 <= k < |lines| ==> !Contains(lines[k], "\n")
    requires !Contains(a, "\n") && a != ""
    ensures Parse(Join(lines + [a], "\n")) == Findings(Run(lines + [a]).vulns, Run(lines + [a]).soFiles)
  {
    SplitJoinSnoc(lines, a, "\n");
    ParseOfSplit(Join(lines + [a], "\n"), lines + [a]);
  }

  lemma ParseOfSplit(text: string, parts: seq<string>)
    requires text != "" && Split(text, "\n") == parts
    ensures Parse(text) == Findings(Run(parts).vulns, Run(parts).soFiles)
  {
  }

  /** A vulnerability whose severity is the one `DetermineSeverity` gives its type. */
  predicate RatedVulnerability(v: Vulnerability) {
    v.severity == DetermineSeverity(v.kind)
  }

  /** Every vulnerability the pass emits or holds is rated by `DetermineSeverity`. */
  predicate Rated(st: ParserState) {
    && (forall k :: 0 <= k < |st.vulns| ==> RatedVulnerability(st.vulns[k]))
    && (st.pending.Some? ==> RatedVulnerability(st.pending.value))
  }

  lemma RatedAppend(st: ParserState, v: Vulnerability)
    requires Rated(st) && RatedVulnerability(v)
    ensures forall k :: 0 <= k < |st.vulns + [v]| ==> RatedVulnerability((st.vulns + [v])[k])
  {
  }

  /** Rated vulnerabilities are never "info". */
  lemma RatedNoInfo(st: ParserState)
    requires Rated(st)
    ensures NoInfo(st.vulns)
  {
    forall k | 0 <= k < |st.vulns| ensures st.vulns[k].severity != Info {
      assert RatedVulnerability(st.vulns[k]);
    }
  }

  lemma SameVulnerabilitiesRated(st: ParserState, next: ParserState)
    requires Rated(st) && next.vulns == st.vulns && next.pending == st.pending
    ensures Rated(next)
  {
  }

  lemma VulnerabilityStepRated(st: ParserState, line: string)
    requires Rated(st)
    ensures Rated(VulnerabilityStep(st, line))
  {
    if StartsWith(line, ALERT) {
      var a := AlertLine(line);
      assert a.Some? ==> RatedVulnerability(a.value);
    } else if StartsWith(line, RISK) && st.pending.Some? {
      RatedAppend(st, st.pending.value.(risk := Some(RiskText(line))));
    } else if !IsFoundHeader(line) && st.pending.Some? {
      RatedAppend(st, st.pending.value);
    }
  }

  lemma StepRated(st: ParserState, raw: string)
    requires Rated(st)
    ensures Rated(Step(st, raw))
  {
    var line := Trim(raw);
    if Skipped(line) {
      StepSkips(st, raw);
    } else if IsSoHeader(line) {
      StepOpens(st, raw);
      SameVulnerabilitiesRated(st, st.(soFiles := st.soFiles + [SoFileAnalysis(SoFileName(line), [])]));
    } else if st.soFiles != [] && IsIssueLine(line) {
      StepIssue(st, raw);
      SameVulnerabilitiesRated(st, AddIssue(st, NativeIssueOf(line)));
    } else {
      StepDelegates(st, raw);
      VulnerabilityStepRated(st, line);
    }
  }

  lemma {:induction false} RunRated(lines: seq<string>)
    ensures Rated(Run(lines))
  {
    if lines != [] {
      RunRated(lines[..|lines| - 1]);
      StepRated(Run(lines[..|lines| - 1]), lines[|lines| - 1]);
    }
  }

  /** The critical, high, medium and low counts of the parsed text add up to
      the number of vulnerabilities. */
  lemma SeverityCountsCoverAll(text: string)
    ensures var vs := Parse(text).vulnerabilities;
      CountOf(vs, Critical) + CountOf(vs, High) + CountOf(vs, Medium) + CountOf(vs, Low) == |vs|
  {
    if text != "" {
      RunRated(Split(text, "\n"));
      RatedNoInfo(Run(Split(text, "\n")));
    }
    CountsSumToTotal(Parse(text).vulnerabilities);
  }

  /** The output is append-only: earlier vulnerabilities are kept in order,
      reports are never removed or renamed, and only the last report can gain issues. */
  predicate Extends(a: ParserState, b: ParserState) {
    && a.vulns <= b.vulns
    && |a.soFiles| <= |b.soFiles|
    && (forall k :: 0 <= k < |a.soFiles| - 1 ==> b.soFiles[k] == a.soFiles[k])
    && (a.soFiles != [] ==>
          && b.soFiles[|a.soFiles| - 1].file == a.soFiles[|a.soFiles| - 1].file
          && a.soFiles[|a.soFiles| - 1].issues <= b.soFiles[|a.soFiles| - 1].issues)
  }

  lemma StepExtends(st: ParserState, raw: string)
    ensures Extends(st, Step(st, raw))
  {
    var line := Trim(raw);
    if Skipped(line) {
      StepSkips(st, raw);
      ExtendsReflexive(st);
    } else if IsSoHeader(line) {
      StepOpens(st, raw);
      NewReportExtends(st, SoFileName(line));
    } else if st.soFiles != [] && IsIssueLine(line) {
      StepIssue(st, raw);
      AddIssueExtends(st, NativeIssueOf(line));
    } else {
      StepDelegates(st, raw);
      VulnerabilityStepExtends(st, line);
    }
  }

  lemma ExtendsReflexive(st: ParserState)
    ensures Extends(st, st)
  {
  }

  lemma NewReportExtends(st: ParserState, name: string)
    ensures Extends(st, st.(soFiles := st.soFiles + [SoFileAnalysis(name, [])]))
  {
  }

  lemma AddIssueExtends(st: ParserState, issue: Option<NativeIssue>)
    requires st.soFiles != []
    ensures Extends(st, AddIssue(st, issue))
  {
  }

  lemma VulnerabilityStepExtends(st: ParserState, line: string)
    ensures Extends(st, VulnerabilityStep(st, line))
  {
  }

  lemma ExtendsTransitive(a: ParserState, b: ParserState, c: ParserState)
    requires Extends(a, b) && Extends(b, c)
    ensures Extends(a, c)
  {
    if a.soFiles != [] {
      var i := |a.soFiles| - 1;
      if i < |b.soFiles| - 1 {
        assert c.soFiles[i] == b.soFiles[i];
      }
    }
  }

  lemma RunSnoc(lines: seq<string>, i: nat)
    requires i < |lines|
    ensures Run(lines[..i + 1]) == Step(Run(lines[..i]), lines[i])
  {
    assert lines[..i + 1][..i] == lines[..i];
  }

  lemma RunPair(a: string, b: string)
    ensures Run([b]) == Step(Start, b)
    ensures Run([a, b]) == Step(Step(Start, a), b)
  {
    assert [a, b][..1] == [a];
    assert [b][..0] == [a][..0] == [];
  }

  /** Each prefix of the input leads to a state that the whole input extends. */
  lemma {:induction false} RunExtends(lines: seq<string>, i: nat)
    requires i <= |lines|
    ensures Extends(Run(lines[..i]), Run(lines))
    decreases |lines| - i
  {
    if i == |lines| {
      assert lines[..i] == lines;
    } else {
      RunExtends(lines, i + 1);
      RunSnoc(lines, i);
      StepExtends(Run(lines[..i]), lines[i]);
      ExtendsTransitive(Run(lines[..i]), Run(lines[..i + 1]), Run(lines));
    }
  }

  /** How many records a state holds, the pending one included. */
  function Records(st: ParserState): nat {
    |st.vulns| + (if st.pending.Some? then 1 else 0) + |st.soFiles| + SoIssuesCount(st.soFiles)
  }

  lemma SoIssuesCountAppendIssue(reports: seq<SoFileAnalysis>, issue: NativeIssue)
    requires reports != []
    ensures SoIssuesCount(AppendIssue(reports, issue)) == SoIssuesCount(reports) + 1
  {
    var r := AppendIssue(reports, issue);
    assert r[..|r| - 1] == reports[..|reports| - 1];
  }

  lemma VulnerabilityStepAddsAtMostOne(st: ParserState, line: string)
    ensures Records(VulnerabilityStep(st, line)) <= Records(st) + 1
  {
  }

  lemma NewReportAddsOne(st: ParserState, name: string)
    ensures Records(st.(soFiles := st.soFiles + [SoFileAnalysis(name, [])])) == Records(st) + 1
  {
    var r := st.soFiles + [SoFileAnalysis(name, [])];
    assert r[..|r| - 1] == st.soFiles;
  }

  lemma SoHeaderAddsOne(st: ParserState, raw: string)
    requires !Skipped(Trim(raw)) && IsSoHeader(Trim(raw))
    ensures Records(Step(st, raw)) == Records(st) + 1
  {
    StepOpens(st, raw);
    NewReportAddsOne(st, SoFileName(Trim(raw)));
  }

  lemma IssueAddsAtMostOne(st: ParserState, raw: string)
    requires !Skipped(Trim(raw)) && !IsSoHeader(Trim(raw)) && st.soFiles != [] && IsIssueLine(Trim(raw))
    ensures Records(Step(st, raw)) <= Records(st) + 1
  {
    StepIssue(st, raw);
    AddIssueAddsAtMostOne(st, NativeIssueOf(Trim(raw)));
  }

  lemma AddIssueAddsAtMostOne(st: ParserState, issue: Option<NativeIssue>)
    requires st.soFiles != []
    ensures Records(AddIssue(st, issue)) <= Records(st) + 1
  {
    if issue.Some? {
      SoIssuesCountAppendIssue(st.soFiles, issue.value);
    }
  }

  lemma OtherAddsAtMostOne(st: ParserState, raw: string)
    requires !Skipped(Trim(raw)) && !IsSoHeader(Trim(raw)) && !(st.soFiles != [] && IsIssueLine(Trim(raw)))
    ensures Records(Step(st, raw)) <= Records(st) + 1
  {
    StepDelegates(st, raw);
    VulnerabilityStepAddsAtMostOne(st, Trim(raw));
  }

  lemma StepAddsAtMostOne(st: ParserState, raw: string)
    ensures Records(Step(st, raw)) <= Records(st) + 1
  {
    var line := Trim(raw);
    if Skipped(line) {
      StepSkips(st, raw);
    } else if IsSoHeader(line) {
      SoHeaderAddsOne(st, raw);
    } else if st.soFiles != [] && IsIssueLine(line) {
      IssueAddsAtMostOne(st, raw);
    } else {
      OtherAddsAtMostOne(st, raw);
    }
  }

  /** Every record comes from a line of its own: the vulnerabilities, reports
      and native issues of a text never outnumber its lines. */
  lemma {:induction false} RecordsWithinLines(lines: seq<string>)
    ensures Records(Run(lines)) <= |lines|
  {
    if lines != [] {
      RecordsWithinLines(lines[..|lines| - 1]);
      StepAddsAtMostOne(Run(lines[..|lines| - 1]), lines[|lines| - 1]);
    }
  }

  /** When critical and high keywords both occur (say "weak password"), the
      type is critical: the priority order decides. */
  lemma CriticalOutranksHigh(kind: string)
    requires CriticalKeyword(ToLower(kind)) && HighKeyword(ToLower(kind))
    ensures DetermineSeverity(kind) == Critical
  {
  }
}
