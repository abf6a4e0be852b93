/** The analysis server (apk-tools-server/src/index.ts): the table of tools,
    where each tool leaves its result, which uploads are admitted, how the
    container command is built, how a container run is classified, and the
    request handler that ties these to the file system. The container run is
    an input: how it ended and what it wrote under the output directory. */
module Server {
  import opened Wrappers
  import opened JsString
  import opened Files
  import FileUpload

  const APK_MIME := "application/vnd.android.package-archive"
  /** multer's `limits.fileSize`: 100 MB. */
  const MAX_UPLOAD_BYTES := 100 * 1024 * 1024
  const MAX_BUFFER_CODE := "ERR_CHILD_PROCESS_STDIO_MAXBUFFER"
  const NO_FILE_MESSAGE := "No APK file provided or invalid file type"
  const DEFAULT_MESSAGE := "Internal Server Error"
  /** The message of multer's error for a file over the size limit. */
  const TOO_LARGE_MESSAGE := "File too large"

  /** Where a tool writes its result: in a folder named after the APK, or
      directly in its output directory. */
  datatype Layout = PerApkFolder | Flat

  /** A tool; `passesFilename` stands for a `commandArgs` that passes the
      uploaded file's name. */
  datatype ToolConfig = ToolConfig(
    name: string, inputDir: Path, outputDir: Path, image: string,
    resultFile: string, fallbackResultFile: Option<string>,
    passesFilename: bool, layout: Layout)

  // ---------------------------------------------------------------- the tools

  /** The `tools` table, with `toolsDir` for `TOOLS_DIR`. */
  function Tools(toolsDir: Path): map<string, ToolConfig> {
    map[
      "reconizex" := ToolConfig(
        "ReconizeX", toolsDir + ["reconizex", "input"], toolsDir + ["reconizex", "output"],
        "devrvk/reconizerx-docker", "non-info.txt", Some("nuk.txt"), true, PerApkFolder),
      "secureapk" := ToolConfig(
        "SecureApk", toolsDir + ["secureapk", "input"], toolsDir + ["secureapk", "output"],
        "devrvk/secureapk", "vulnerabilities.txt", None, false, Flat)
    ]
  }

  /** The two directories of a tool are distinct and neither lies in the other. */
  predicate DirsApart(tool: ToolConfig) {
    tool.inputDir != tool.outputDir
    && !Below(tool.inputDir, tool.outputDir) && !Below(tool.outputDir, tool.inputDir)
  }

  /** Two tools, each with its own input and output directory; only ReconizeX
      has a fallback result and gets the file name. */
  lemma ToolsTable(toolsDir: Path)
    ensures Tools(toolsDir).Keys == {"reconizex", "secureapk"}
    ensures forall key | key in Tools(toolsDir) :: DirsApart(Tools(toolsDir)[key])
    ensures Tools(toolsDir)["reconizex"].fallbackResultFile == Some("nuk.txt")
    ensures Tools(toolsDir)["reconizex"].passesFilename
    ensures Tools(toolsDir)["secureapk"].fallbackResultFile.None?
    ensures !Tools(toolsDir)["secureapk"].passesFilename
  {
    var n := |toolsDir|;
    forall key | key in Tools(toolsDir) ensures DirsApart(Tools(toolsDir)[key]) {
      var tool := Tools(toolsDir)[key];
      assert tool.inputDir[n + 1] == "input" && tool.outputDir[n + 1] == "output";
    }
  }

  /** `getResultPath(outputDir, filename, resultFile)`. */
  function ResultPath(tool: ToolConfig, filename: string, resultFile: string): (r: Path)
    ensures Below(tool.outputDir, r)
  {
    match tool.layout
    case PerApkFolder => tool.outputDir + [ReplaceFirst(filename, ".apk", ""), resultFile]
    case Flat => tool.outputDir + [resultFile]
  }

  /** ReconizeX's folder is the file name without its first `.apk`:
      "app.apk" gives "app" and "app.apk.apk" gives "app.apk". */
  lemma ApkFolderName(toolsDir: Path, stem: string, rest: string, resultFile: string)
    requires FirstAfter(stem, ".apk")
    ensures ResultPath(Tools(toolsDir)["reconizex"], stem + ".apk" + rest, resultFile)
         == toolsDir + ["reconizex", "output", stem + rest, resultFile]
  {
    ReplaceFirstAfter(stem, ".apk", "", rest);
    assert stem + "" + rest == stem + rest;
  }

  /** A file name without `.apk` names the folder as it is. */
  lemma FolderOfOtherName(toolsDir: Path, filename: string, resultFile: string)
    requires !Contains(filename, ".apk")
    ensures ResultPath(Tools(toolsDir)["reconizex"], filename, resultFile)
         == toolsDir + ["reconizex", "output", filename, resultFile]
  {
  }

  /** SecureApk's result path does not depend on the file name. */
  lemma FlatResultPath(toolsDir: Path, filename: string, resultFile: string)
    ensures ResultPath(Tools(toolsDir)["secureapk"], filename, resultFile)
         == toolsDir + ["secureapk", "output", resultFile]
  {
  }

  // ---------------------------------------------------------------- uploads

  /** `apkFileFilter`: whether multer keeps the uploaded file. */
  function ApkFileFilter(mime: string, originalName: string): (keep: bool) {
    if mime != APK_MIME && !EndsWith(originalName, ".apk") then false else true
  }

  /** A file is dropped only when neither its type nor its name says APK. */
  lemma FilterKeepsApks(mime: string, originalName: string)
    ensures ApkFileFilter(mime, originalName) <==> mime == APK_MIME || EndsWith(originalName, ".apk")
  {
  }

  datatype Upload = Upload(originalName: string, mime: string, size: nat)

  /** What multer leaves for the handler: the stored file's name, no file
      (none sent, or dropped by the filter), or its error for a file over
      the size limit. The filter runs first, so a dropped file is never
      measured; the stored name is the original name. */
  datatype Admission = Stored(filename: string) | NoFile | TooLarge

  function Admit(upload: Option<Upload>): (a: Admission) {
    match upload
    case None => NoFile
    case Some(u) =>
      if !ApkFileFilter(u.mime, u.originalName) then NoFile
      else if u.size > MAX_UPLOAD_BYTES then TooLarge
      else Stored(u.originalName)
  }

  /** An upload is stored exactly when the filter keeps it and it is at most
      100 MB; a file of exactly 100 MB is stored. */
  lemma AdmitStoresIff(u: Upload)
    ensures Admit(Some(u)).Stored? <==> ApkFileFilter(u.mime, u.originalName) && u.size <= 100 * 1024 * 1024
    ensures Admit(Some(u)).Stored? ==> Admit(Some(u)).filename == u.originalName
    ensures Admit(Some(u)) == TooLarge <==> ApkFileFilter(u.mime, u.originalName) && u.size > 104857600
  {
  }

  /** A file the upload widget accepts under its default limit of 100 MB is
      stored by the server, whatever type the browser reports. */
  lemma WidgetAcceptedIsStored(f: FileUpload.File, mime: string)
    requires FileUpload.Validate(Some(f), FileUpload.DEFAULT_MAX_SIZE_MB) == FileUpload.Accept
    ensures Admit(Some(Upload(f.name, mime, f.size))) == Stored(f.name)
  {
    FileUpload.ValidateCases(Some(f), FileUpload.DEFAULT_MAX_SIZE_MB);
  }

  // ---------------------------------------------------------------- errors

  /** An error on its way to `errorHandler`; a `status` of 0 is as good as none. */
  datatype AppError = AppError(message: string, status: Option<int>)

  datatype Response =
    | Analysis(tool: string, filename: string, results: string, completed: Option<bool>)
    | Failure(status: int, message: string)

  /** `errorHandler`: `err.status || 500` and `err.message || 'Internal Server Error'`. */
  function ErrorResponse(err: AppError): (r: Response)
    ensures r.Failure?
  {
    Failure(
      if err.status.Some? && err.status.value != 0 then err.status.value else 500,
      if err.message != "" then err.message else DEFAULT_MESSAGE)
  }

  /** A status is kept; without one (or with 0) it is 500. A message is kept;
      without one it is "Internal Server Error". */
  lemma ErrorStatusDefault(err: AppError)
    ensures ErrorResponse(err).status == 500 <==> err.status.None? || err.status.value in {0, 500}
    ensures err.status.Some? && err.status.value != 0 ==> ErrorResponse(err).status == err.status.value
    ensures ErrorResponse(err).message == (if err.message == "" then DEFAULT_MESSAGE else err.message)
  {
  }

  // ---------------------------------------------------------------- the command

  /** The image tag: `arm64` on an arm64 host, `amd64` on any other. */
  function Arch(hostArch: string): (tag: string)
    ensures tag == "arm64" <==> hostArch == "arm64"
    ensures tag == "amd64" <==> hostArch != "arm64"
  {
    if hostArch == "arm64" then "arm64" else "amd64"
  }

  /** A path as `path.join` prints it, names separated by `/`. */
  function PathText(p: Path): string {
    if p == [] then "" else Join(p, "/")
  }

  function BaseCommand(tool: ToolConfig, hostArch: string): string {
    "docker run -v " + PathText(tool.inputDir) + ":/input -v " + PathText(tool.outputDir)
      + ":/output " + tool.image + ":" + Arch(hostArch)
  }

  /** The `docker run` command of the handler: the base command, and the file
      name after a space for a tool that takes it. */
  function DockerCommand(tool: ToolConfig, filename: string, hostArch: string): (cmd: string)
    ensures StartsWith(cmd, "docker run -v ")
    ensures StartsWith(cmd, BaseCommand(tool, hostArch))
    ensures tool.passesFilename ==>
      EndsWith(cmd, " " + filename) && |cmd| == |BaseCommand(tool, hostArch)| + 1 + |filename|
    ensures !tool.passesFilename ==> cmd == BaseCommand(tool, hostArch)
  {
    var base := BaseCommand(tool, hostArch);
    assert base[..14] == "docker run -v ";
    if tool.passesFilename then
      var cmd := base + " " + filename;
      assert cmd[|cmd| - |" " + filename|..] == " " + filename;
      cmd
    else base
  }

  /** The command in full: both directories mounted, `/input` first, the
      image tagged with the architecture, and the file name appended exactly
      for a tool that takes it. */
  lemma DockerCommandText(tool: ToolConfig, filename: string, hostArch: string)
    ensures DockerCommand(tool, filename, hostArch)
         == "docker run -v " + PathText(tool.inputDir) + ":/input -v " + PathText(tool.outputDir)
            + ":/output " + tool.image + ":" + Arch(hostArch)
            + (if tool.passesFilename then " " + filename else "")
  {
  }

  /** A tool that does not take the file name runs the same command for
      every upload. */
  lemma CommandIgnoresFilename(tool: ToolConfig, f1: string, f2: string, hostArch: string)
    requires !tool.passesFilename
    ensures DockerCommand(tool, f1, hostArch) == DockerCommand(tool, f2, hostArch)
  {
  }

  // ---------------------------------------------------------------- the run

  /** How `exec` ended: success, or an error with or without a `code`. */
  datatype ExecOutcome = Succeeded | Failed(code: Option<string>)

  /** Complete; partial (output buffer overflow on a tool with a fallback
      result); or failed. */
  datatype RunVerdict = Complete | Partial | RunFailed

  function Classify(tool: ToolConfig, outcome: ExecOutcome): RunVerdict {
    match outcome
    case Succeeded => Complete
    case Failed(code) =>
      if tool.fallbackResultFile.Some? && code == Some(MAX_BUFFER_CODE) then Partial else RunFailed
  }

  /** A run is partial only on a buffer overflow of a tool with a fallback,
      and complete only when the container succeeded. */
  lemma ClassifyCases(tool: ToolConfig, outcome: ExecOutcome)
    ensures Classify(tool, outcome) == Complete <==> outcome == Succeeded
    ensures Classify(tool, outcome) == Partial <==>
      tool.fallbackResultFile.Some? && outcome == Failed(Some(MAX_BUFFER_CODE))
    ensures tool.fallbackResultFile.None? ==> Classify(tool, outcome) != Partial
  {
  }

  /** The result file read: the fallback exactly when the run was partial. */
  function ResultFileFor(tool: ToolConfig, verdict: RunVerdict): (f: string)
    ensures verdict != Partial ==> f == tool.resultFile
  {
    if verdict == Partial && tool.fallbackResultFile.Some? then tool.fallbackResultFile.value
    else tool.resultFile
  }

  /** The response once the container has run and left `entries`. */
  function Outcome(toolKey: string, tool: ToolConfig, filename: string, verdict: RunVerdict,
                   entries: map<Path, Node>): (r: Response)
    ensures verdict == RunFailed ==> r == Failure(500, "Failed to analyze APK with " + tool.name)
    ensures r.Analysis? ==> r.tool == toolKey && r.filename == filename
    ensures r.Analysis? ==> (r.completed.Some? <==> tool.fallbackResultFile.Some?)
    ensures r.Analysis? && r.completed.Some? ==> (r.completed.value <==> verdict == Complete)
    ensures r.Failure? ==> r.status == 500
  {
    if verdict == RunFailed then
      ErrorResponse(AppError("Failed to analyze APK with " + tool.name, Some(500)))
    else
      var path := ResultPath(tool, filename, ResultFileFor(tool, verdict));
      if path in entries && entries[path].File? then
        Analysis(toolKey, filename, entries[path].content,
                 if tool.fallbackResultFile.Some? then Some(verdict == Complete) else None)
      else ErrorResponse(AppError("Failed to read analysis results from " + tool.name, Some(500)))
  }

  /** The results returned are the contents of the chosen result file; a
      missing result file, or a directory in its place, fails with 500. */
  lemma OutcomeReadsResult(toolKey: string, tool: ToolConfig, filename: string, verdict: RunVerdict,
                           entries: map<Path, Node>)
    requires verdict != RunFailed
    ensures var path := ResultPath(tool, filename, ResultFileFor(tool, verdict));
      var r := Outcome(toolKey, tool, filename, verdict, entries);
      r.Analysis? <==> path in entries && entries[path].File?
    ensures var path := ResultPath(tool, filename, ResultFileFor(tool, verdict));
      path in entries && entries[path].File? ==>
        Outcome(toolKey, tool, filename, verdict, entries).results == entries[path].content
    ensures var path := ResultPath(tool, filename, ResultFileFor(tool, verdict));
      !(path in entries && entries[path].File?) ==>
        Outcome(toolKey, tool, filename, verdict, entries)
          == Failure(500, "Failed to read analysis results from " + tool.name)
  {
  }

  /** ReconizeX with an overflowing buffer answers from `nuk.txt`, marked
      incomplete. */
  lemma ReconizexPartial(toolsDir: Path, filename: string, entries: map<Path, Node>)
    requires var path := ResultPath(Tools(toolsDir)["reconizex"], filename, "nuk.txt");
      path in entries && entries[path].File?
    ensures var tool := Tools(toolsDir)["reconizex"];
      Outcome("reconizex", tool, filename, Classify(tool, Failed(Some(MAX_BUFFER_CODE))), entries)
        == Analysis("reconizex", filename,
                    entries[ResultPath(tool, filename, "nuk.txt")].content, Some(false))
  {
  }

  /** SecureApk has no fallback: an overflowing buffer is a failed run. */
  lemma SecureApkOverflowFails(toolsDir: Path, filename: string, entries: map<Path, Node>)
    ensures var tool := Tools(toolsDir)["secureapk"];
      Outcome("secureapk", tool, filename, Classify(tool, Failed(Some(MAX_BUFFER_CODE))), entries)
        == Failure(500, "Failed to analyze APK with SecureApk")
  {
  }

  // ---------------------------------------------------------------- the handler

  /** What the container may write: only inside the output directory, and
      only into directories that exist once it has written. */
  predicate WritesInto(writes: map<Path, Node>, dir: Path) {
    forall p :: p in writes ==>
      Below(dir, p)
      && (p[..|p| - 1] == dir || (p[..|p| - 1] in writes && writes[p[..|p| - 1]].Dir?))
  }

  /** The container's writes land in a tree whose output directory exists
      and is empty. */
  lemma WritesKeepTree(entries: map<Path, Node>, writes: map<Path, Node>, dir: Path)
    requires Tree(entries) && dir in entries && entries[dir].Dir? && Inside(entries, dir) == {}
    requires WritesInto(writes, dir)
    ensures Tree(entries + writes)
  {
    var m := entries + writes;
    forall p | p in m && p != [] ensures p[..|p| - 1] in m && m[p[..|p| - 1]].Dir? {
      var parent := p[..|p| - 1];
      if p in writes {
        assert parent == dir || parent in writes;
      } else {
        assert p !in Inside(entries, dir);
        ParentInside(dir, p);
        assert parent in writes ==> Below(dir, parent);
      }
    }
  }

  /** The container run: its effect on the file system is `writes`. */
  method RunContainer(fs: FileSystem, writes: map<Path, Node>, outputDir: Path)
    requires fs.Valid() && outputDir in fs.entries && fs.entries[outputDir].Dir?
    requires Inside(fs.entries, outputDir) == {}
    requires WritesInto(writes, outputDir)
    modifies fs
    ensures fs.Valid() && fs.entries == old(fs.entries) + writes
  {
    WritesKeepTree(fs.entries, writes, outputDir);
    fs.entries := fs.entries + writes;
  }

  /** `handleAnalysis` for the uploaded file `file` (None when multer left
      none). The output directory is purged before the run; the input
      directory only once a result has been read. The command it runs is
      returned as well. */
  method HandleAnalysis(fs: FileSystem, toolKey: string, tool: ToolConfig, file: Option<string>,
                        hostArch: string, outcome: ExecOutcome, writes: map<Path, Node>)
    returns (resp: Response, command: Option<string>)
    requires fs.Valid() && tool.outputDir in fs.entries && fs.entries[tool.outputDir].Dir?
    requires WritesInto(writes, tool.outputDir)
    modifies fs
    ensures fs.Valid()
    ensures file.None? ==>
      resp == Failure(400, NO_FILE_MESSAGE) && command.None? && fs.entries == old(fs.entries)
    ensures file.Some? ==> command == Some(DockerCommand(tool, file.value, hostArch))
    ensures file.Some? ==>
      var afterRun := Purged(old(fs.entries), tool.outputDir) + writes;
      && resp == Outcome(toolKey, tool, file.value, Classify(tool, outcome), afterRun)
      && fs.entries == (if resp.Analysis? then Purged(afterRun, tool.inputDir) else afterRun)
  {
    if file.None? {
      resp := ErrorResponse(AppError(NO_FILE_MESSAGE, Some(400)));
      command := None;
      return;
    }
    var filename := file.value;
    Cleanup(fs, tool.outputDir);

    var dockerCmd := BaseCommand(tool, hostArch);
    if tool.passesFilename {
      dockerCmd := dockerCmd + " " + filename;
    }
    command := Some(dockerCmd);

    ghost var before := fs.entries;
    PurgeEmpties(old(fs.entries), tool.outputDir);
    RunContainer(fs, writes, tool.outputDir);
    var completed := true;
    if outcome.Failed? {
      if tool.fallbackResultFile.Some? && outcome.code == Some(MAX_BUFFER_CODE) {
        completed := false;
      } else {
        resp := ErrorResponse(AppError("Failed to analyze APK with " + tool.name, Some(500)));
        return;
      }
    }
    resp := ReadResults(fs, toolKey, tool, filename, completed);
  }

  /** The second half of `handleAnalysis`: the result file (the fallback
      after a partial run) is read, the input directory purged, and the
      results returned. */
  method ReadResults(fs: FileSystem, toolKey: string, tool: ToolConfig, filename: string,
                     completed: bool)
    returns (resp: Response)
    requires fs.Valid() && (!completed ==> tool.fallbackResultFile.Some?)
    modifies fs
    ensures fs.Valid()
    ensures resp == Outcome(toolKey, tool, filename, if completed then Complete else Partial,
                            old(fs.entries))
    ensures fs.entries == (if resp.Analysis? then Purged(old(fs.entries), tool.inputDir)
                           else old(fs.entries))
  {
    ghost var verdict := if completed then Complete else Partial;
    ghost var expected := Outcome(toolKey, tool, filename, verdict, fs.entries);
    var resultFile := if !completed && tool.fallbackResultFile.Some? then tool.fallbackResultFile.value
                      else tool.resultFile;
    assert resultFile == ResultFileFor(tool, verdict);
    var outputPath := ResultPath(tool, filename, resultFile);
    OutcomeReadsResult(toolKey, tool, filename, verdict, fs.entries);
    if outputPath !in fs.entries || fs.entries[outputPath].Dir? {
      resp := ErrorResponse(AppError("Failed to read analysis results from " + tool.name, Some(500)));
      return;
    }
    var results := fs.entries[outputPath].content;
    var completedField := if tool.fallbackResultFile.Some? then Some(completed) else None;
    assert expected.Analysis? && expected.results == results;
    assert expected.completed == completedField;
    Cleanup(fs, tool.inputDir);
    resp := Analysis(toolKey, filename, results, completedField);
  }

  /** Only files lie in an input directory: multer writes nothing else there. */
  predicate HoldsFiles(entries: map<Path, Node>, dir: Path) {
    forall p :: p in entries && Below(dir, p) ==> entries[p].File?
  }

  /** The endpoint of a tool: multer's admission, which stores an admitted
      upload (contents `apk`) in the tool's input directory under its
      original name, then the handler. multer's size error reaches
      `errorHandler` without a status. */
  method Endpoint(fs: FileSystem, toolsDir: Path, toolKey: string, upload: Option<Upload>,
                  apk: string, hostArch: string, outcome: ExecOutcome, writes: map<Path, Node>)
    returns (resp: Response)
    requires toolKey in Tools(toolsDir) && fs.Valid()
    requires var tool := Tools(toolsDir)[toolKey];
      && tool.inputDir in fs.entries && fs.entries[tool.inputDir].Dir?
      && tool.outputDir in fs.entries && fs.entries[tool.outputDir].Dir?
      && HoldsFiles(fs.entries, tool.inputDir)
      && WritesInto(writes, tool.outputDir)
    modifies fs
    ensures fs.Valid()
    ensures Admit(upload) == TooLarge ==>
      resp == Failure(500, TOO_LARGE_MESSAGE) && fs.entries == old(fs.entries)
    ensures Admit(upload) == NoFile ==>
      resp == Failure(400, NO_FILE_MESSAGE) && fs.entries == old(fs.entries)
    ensures Admit(upload).Stored? ==>
      var tool := Tools(toolsDir)[toolKey];
      var name := Admit(upload).filename;
      var afterRun := AfterRun(old(fs.entries), tool, name, apk, writes);
      && resp == Outcome(toolKey, tool, name, Classify(tool, outcome), afterRun)
      && fs.entries == (if resp.Analysis? then Purged(afterRun, tool.inputDir) else afterRun)
  {
    var tool := Tools(toolsDir)[toolKey];
    match Admit(upload)
    case TooLarge =>
      resp := ErrorResponse(AppError(TOO_LARGE_MESSAGE, None));
    case NoFile =>
      var command;
      resp, command := HandleAnalysis(fs, toolKey, tool, None, hostArch, outcome, writes);
    case Stored(filename) =>
      resp := StoreAndAnalyse(fs, toolsDir, toolKey, filename, apk, hostArch, outcome, writes);
  }

  /** multer's disk storage writes the upload, then the handler runs. */
  method StoreAndAnalyse(fs: FileSystem, toolsDir: Path, toolKey: string, filename: string,
                         apk: string, hostArch: string, outcome: ExecOutcome, writes: map<Path, Node>)
    returns (resp: Response)
    requires toolKey in Tools(toolsDir) && fs.Valid()
    requires var tool := Tools(toolsDir)[toolKey];
      && tool.inputDir in fs.entries && fs.entries[tool.inputDir].Dir?
      && tool.outputDir in fs.entries && fs.entries[tool.outputDir].Dir?
      && HoldsFiles(fs.entries, tool.inputDir)
      && WritesInto(writes, tool.outputDir)
    modifies fs
    ensures fs.Valid()
    ensures var tool := Tools(toolsDir)[toolKey];
      var afterRun := AfterRun(old(fs.entries), tool, filename, apk, writes);
      && resp == Outcome(toolKey, tool, filename, Classify(tool, outcome), afterRun)
      && fs.entries == (if resp.Analysis? then Purged(afterRun, tool.inputDir) else afterRun)
  {
    var tool := Tools(toolsDir)[toolKey];
    var path := tool.inputDir + [filename];
    assert path[..|path| - 1] == tool.inputDir;
    assert Below(tool.inputDir, path);
    UploadOutsideOutput(toolsDir, toolKey, filename);
    fs.WriteFile(path, apk);
    var command;
    resp, command := HandleAnalysis(fs, toolKey, tool, Some(filename), hostArch, outcome, writes);
  }

  /** The file system once the upload is stored, the output directory
      purged and the container has written. */
  function AfterRun(entries: map<Path, Node>, tool: ToolConfig, name: string, apk: string,
                  writes: map<Path, Node>): map<Path, Node> {
    Purged(entries[tool.inputDir + [name] := File(apk)], tool.outputDir) + writes
  }

  /** The stored upload is still in the input directory after a failed
      analysis, and gone after a successful one. */
  lemma UploadRemovedOnlyOnSuccess(toolsDir: Path, key: string, entries: map<Path, Node>,
                                   name: string, apk: string, writes: map<Path, Node>, resp: Response)
    requires key in Tools(toolsDir)
    requires WritesInto(writes, Tools(toolsDir)[key].outputDir)
    ensures var tool := Tools(toolsDir)[key];
      var afterRun := AfterRun(entries, tool, name, apk, writes);
      var final := if resp.Analysis? then Purged(afterRun, tool.inputDir) else afterRun;
      && (resp.Failure? ==> tool.inputDir + [name] in final && final[tool.inputDir + [name]] == File(apk))
      && (resp.Analysis? && tool.inputDir in entries && entries[tool.inputDir].Dir? ==>
            tool.inputDir + [name] !in final)
  {
    var tool := Tools(toolsDir)[key];
    var upload := tool.inputDir + [name];
    var withUpload := entries[upload := File(apk)];
    UploadOutsideOutput(toolsDir, key, name);
    PurgeKeepsOutside(withUpload, tool.outputDir, upload);
    assert upload in writes ==> Below(tool.outputDir, upload);
    var afterRun := AfterRun(entries, tool, name, apk, writes);
    if resp.Analysis? && tool.inputDir in entries && entries[tool.inputDir].Dir? {
      PurgeKeepsOutside(withUpload, tool.outputDir, tool.inputDir);
      assert tool.inputDir in writes ==> Below(tool.outputDir, tool.inputDir);
      assert afterRun[tool.inputDir].Dir?;
      assert Below(tool.inputDir, upload);
    }
  }

  /** Purging a tool's output directory leaves its input directory, and the
      upload in it, alone. */
  lemma OutputPurgeKeepsInput(toolsDir: Path, key: string, entries: map<Path, Node>, name: string)
    requires key in Tools(toolsDir)
    ensures var tool := Tools(toolsDir)[key];
      var upload := tool.inputDir + [name];
      (upload in Purged(entries, tool.outputDir) <==> upload in entries)
  {
    UploadOutsideOutput(toolsDir, key, name);
    PurgeKeepsOutside(entries, Tools(toolsDir)[key].outputDir, Tools(toolsDir)[key].inputDir + [name]);
  }

  /** An upload, and the input directory itself, lie outside the output directory. */
  lemma UploadOutsideOutput(toolsDir: Path, key: string, name: string)
    requires key in Tools(toolsDir)
    ensures var tool := Tools(toolsDir)[key];
      !Below(tool.outputDir, tool.inputDir + [name]) && !Below(tool.outputDir, tool.inputDir)
      && tool.outputDir != tool.inputDir + [name]
  {
    ToolsTable(toolsDir);
    var tool := Tools(toolsDir)[key];
    var upload := tool.inputDir + [name];
    var k := |toolsDir| + 1;
    assert upload[..|tool.outputDir|][k] == "input" != tool.outputDir[k];
  }
}
