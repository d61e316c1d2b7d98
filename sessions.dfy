/**
 * The session of the assistant: the state app.js keeps in currentSession (the tasks, the set
 * of modified files, the backups, the log) together with the files it reads and writes.
 *
 * Every operation is first stated as a function from the state before to the state after
 * (and its reply); the lemmas about the session are proved about these functions. Class
 * Assistant then performs the same steps in place, method by method as app.js does, and each
 * method is proved to arrive where its function says.
 *
 * What the outside world decides is a parameter: the random identifiers of generateId, the
 * clock, the environment (home directory, API key), the answers typed at the command line,
 * the completion service, and which paths the process may not write.
 */
module Sessions {
  import opened Wrappers
  import opened Text
  import opened Sorting
  import Tasks
  import opened ProjectAnalyzer
  import FileIndex
  import opened Relevance
  import opened ContextBuilder
  import opened Prompting
  import opened ResponseParser
  import ConsoleBox

  // ---------------------------------------------------------------------------
  // configuration and environment

  /** The configuration entries the session operations read. */
  datatype Config = Config(maxContextFiles: nat, ignoreDirs: set<string>, maxFileSizeKb: int, enableCLI: bool)

  /** DEFAULT_CONFIG. */
  const DefaultConfig := Config(8, FileIndex.DefaultIgnoreDirs, 200, true)

  /** What the process finds around it: its configuration, the application directory
      (~/.project-assistant), the paths it may not write, and whether OPENAI_API_KEY is set. */
  datatype Env = Env(config: Config, appDir: string, readOnly: set<string>, hasApiKey: bool)

  predicate IsHexDigit(c: char) { '0' <= c <= '9' || 'a' <= c <= 'f' }

  /** generateId: four random bytes in hexadecimal. */
  predicate IsGeneratedId(id: string) {
    |id| == 8 && forall i :: 0 <= i < |id| ==> IsHexDigit(id[i])
  }

  function SessionsDir(env: Env): string { env.appDir + "/sessions" }
  function ExportsDir(env: Env): string { env.appDir + "/exports" }
  function BackupsDir(env: Env): string { env.appDir + "/backups" }

  function SessionPath(env: Env, id: string): string { SessionsDir(env) + "/" + id + ".json" }

  /** Where backupFile writes its copy: "<id>_<basename>" in the backups directory. */
  function BackupPath(env: Env, id: string, filePath: string): string {
    BackupsDir(env) + "/" + id + "_" + Basename(filePath)
  }

  predicate IsAbsolute(path: string) { |path| > 0 && path[0] == '/' }

  /** The path saveFile writes: an absolute path as given, otherwise under the project. */
  function ResolvePath(projectDir: string, filePath: string): string {
    if IsAbsolute(filePath) then filePath else projectDir + "/" + filePath
  }

  // ---------------------------------------------------------------------------
  // the log

  datatype Level = Info | Warning | Error

  datatype LogEntry = LogEntry(timestamp: int, level: Level, message: string)

  const MaxLogs := 1000

  /** logs.slice(-1000) when there are more than 1000: the newest 1000 entries. */
  function CapLog(logs: seq<LogEntry>): (r: seq<LogEntry>)
    ensures |r| == if |logs| > MaxLogs then MaxLogs else |logs|
    ensures forall i :: 0 <= i < |r| ==> r[i] == logs[|logs| - |r| + i]
  {
    if |logs| > MaxLogs then logs[|logs| - MaxLogs..] else logs
  }

  /** Capping after every append keeps the same entries as capping once at the end. */
  lemma CapLogAppend(a: seq<LogEntry>, b: seq<LogEntry>)
    ensures CapLog(CapLog(a) + b) == CapLog(a + b)
  {
    var c := CapLog(a);
    var k := |a| - |c|;
    assert c + b == (a + b)[k..];
    if k > 0 {
      assert |c| == MaxLogs;
      var x := a + b;
      assert |c + b| > MaxLogs || b == [];
      if b != [] {
        assert CapLog(c + b) == (c + b)[|c + b| - MaxLogs..];
        assert CapLog(x) == x[|x| - MaxLogs..];
        assert (c + b)[|c + b| - MaxLogs..] == x[k..][|x| - k - MaxLogs..];
      } else {
        assert c + b == c;
        assert a + b == a;
      }
    }
  }

  // ---------------------------------------------------------------------------
  // the session and the disk

  datatype Backup = Backup(id: string, originalPath: string, backupPath: string, timestamp: int)

  datatype SessionStatus = Idle | Running | Paused

  /** currentSession. An empty id stands for the null id of the idle session. The set of
      modified files is kept in insertion order, as a JavaScript Set iterates. */
  datatype Session = Session(
    id: string,
    startTime: Option<int>,
    projectDir: string,
    projectInfo: Option<ProjectInfo>,
    tasks: seq<Tasks.Task>,
    modifiedFiles: seq<string>,
    backups: seq<Backup>,
    status: SessionStatus,
    logs: seq<LogEntry>)

  /** The session the process starts with. */
  const NoSession := Session("", None, "", None, [], [], [], Idle, [])

  /** `if (!currentSession.id)` fails for null and for "". */
  predicate Active(s: Session) { s.id != "" }

  /** addLogEntry: append one entry, then keep the newest 1000. */
  function Log(s: Session, level: Level, message: string, now: int): (r: Session)
    ensures r == s.(logs := r.logs)
    ensures 0 < |r.logs| <= MaxLogs && r.logs[|r.logs| - 1] == LogEntry(now, level, message)
    ensures |s.logs| < MaxLogs ==> r.logs == s.logs + [LogEntry(now, level, message)]
  {
    s.(logs := CapLog(s.logs + [LogEntry(now, level, message)]))
  }

  /** A session file as JSON.parse reads it back: either it does not parse, or it gives a
      session object, with or without a logs field. */
  datatype SessionFile = Corrupt | Json(data: Session, hasLogs: bool)

  /** metadata.json of an export. */
  datatype Manifest = Manifest(timestamp: int, sessionId: string, projectDir: string, files: seq<string>)

  /** The file system as the session sees it: file contents by path, the directories, the
      saved sessions and the export manifests by path. */
  datatype Disk = Disk(
    files: map<string, string>,
    dirs: set<string>,
    sessionFiles: map<string, SessionFile>,
    manifests: map<string, Manifest>)

  datatype State = State(session: Session, disk: Disk)

  /** fs.existsSync: a file or a directory is at the path. */
  predicate Exists(d: Disk, path: string) {
    path in d.files || path in d.dirs
  }

  /** writeFile succeeds unless the path is protected or is a directory. */
  predicate Writable(env: Env, d: Disk, path: string) {
    path !in env.readOnly && path !in d.dirs
  }

  function Logged(st: State, level: Level, message: string, now: int): State {
    st.(session := Log(st.session, level, message, now))
  }

  /** Node's messages for the failures an export can meet. */
  function DeniedMessage(path: string): string { "EACCES: permission denied, open '" + path + "'" }
  const IsDirMessage := "EISDIR: illegal operation on a directory, read"
  function ExistsMessage(path: string): string { "EEXIST: file already exists, mkdir '" + path + "'" }

  // ---------------------------------------------------------------------------
  // backupFile and restoreFromBackup

  /** currentSession.backups.find(b => b.id === backupId): the first backup with that id. */
  function FindBackup(bs: seq<Backup>, id: string): (r: Option<Backup>)
    ensures r.None? <==> forall i :: 0 <= i < |bs| ==> bs[i].id != id
    ensures r.Some? ==> r.value.id == id && r.value in bs
  {
    if bs == [] then None
    else if bs[0].id == id then Some(bs[0])
    else FindBackup(bs[1..], id)
  }

  /** A backup whose id no earlier backup has is the one found by its id. */
  lemma {:induction false} FindBackupFresh(bs: seq<Backup>, b: Backup)
    requires forall i :: 0 <= i < |bs| ==> bs[i].id != b.id
    ensures FindBackup(bs + [b], b.id) == Some(b)
  {
    if bs != [] {
      assert (bs + [b])[1..] == bs[1..] + [b];
      FindBackupFresh(bs[1..], b);
    }
  }

  /** backupFile: read the file, write the copy, record the backup, log. A failed read or
      write logs the failure and returns null. */
  function BackedUp(env: Env, st: State, filePath: string, id: string, now: int): (r: (State, Option<string>))
    ensures var bp := BackupPath(env, id, filePath);
      r.1.Some? <==> filePath in st.disk.files && Writable(env, st.disk, bp)
    ensures r.1.Some? ==> var bp := BackupPath(env, id, filePath);
      && r.1.value == id
      && r.0.disk == st.disk.(files := st.disk.files[bp := st.disk.files[filePath]])
      && r.0.session == Log(st.session.(backups := st.session.backups + [Backup(id, filePath, bp, now)]),
                            Info, "File backed up", now)
    ensures r.1.None? ==> r.0 == Logged(st, Error, "Backup failed", now)
  {
    var bp := BackupPath(env, id, filePath);
    if filePath !in st.disk.files || !Writable(env, st.disk, bp) then (Logged(st, Error, "Backup failed", now), None)
    else
      var d := st.disk.(files := st.disk.files[bp := st.disk.files[filePath]]);
      var s := st.session.(backups := st.session.backups + [Backup(id, filePath, bp, now)]);
      (Logged(State(s, d), Info, "File backed up", now), Some(id))
  }

  /** restoreFromBackup: find the backup; copy its content back over the original path. An
      unknown id changes nothing, not even the log. */
  function Restored(env: Env, st: State, id: string, now: int): (r: (State, bool))
    ensures FindBackup(st.session.backups, id).None? ==> r == (st, false)
    ensures r.1 <==> (FindBackup(st.session.backups, id).Some?
                      && FindBackup(st.session.backups, id).value.backupPath in st.disk.files
                      && Writable(env, st.disk, FindBackup(st.session.backups, id).value.originalPath))
    ensures r.1 ==> var b := FindBackup(st.session.backups, id).value;
      r.0 == Logged(st.(disk := st.disk.(files := st.disk.files[b.originalPath := st.disk.files[b.backupPath]])),
                    Info, "File restored from backup", now)
    ensures !r.1 && FindBackup(st.session.backups, id).Some? ==> r.0 == Logged(st, Error, "Restore failed", now)
  {
    match FindBackup(st.session.backups, id)
    case None => (st, false)
    case Some(b) =>
      if b.backupPath in st.disk.files && Writable(env, st.disk, b.originalPath) then
        var d := st.disk.(files := st.disk.files[b.originalPath := st.disk.files[b.backupPath]]);
        (Logged(st.(disk := d), Info, "File restored from backup", now), true)
      else (Logged(st, Error, "Restore failed", now), false)
  }

  /** Backing a file up, overwriting it, and restoring that backup gives the file back the
      content it had when it was backed up. */
  lemma BackupRestoreRoundTrip(env: Env, st: State, filePath: string, id: string, content: string,
                               t1: int, t2: int)
    requires filePath in st.disk.files
    requires forall i :: 0 <= i < |st.session.backups| ==> st.session.backups[i].id != id
    requires Writable(env, st.disk, BackupPath(env, id, filePath)) && Writable(env, st.disk, filePath)
    requires BackupPath(env, id, filePath) != filePath
    ensures var (st1, r) := BackedUp(env, st, filePath, id, t1);
      var st2 := st1.(disk := st1.disk.(files := st1.disk.files[filePath := content]));
      var (st3, ok) := Restored(env, st2, id, t2);
      r == Some(id) && ok && st3.disk.files[filePath] == st.disk.files[filePath]
  {
    var bp := BackupPath(env, id, filePath);
    FindBackupFresh(st.session.backups, Backup(id, filePath, bp, t1));
  }

  // ---------------------------------------------------------------------------
  // saveSession, loadSession, startSession

  /** saveSession: the session as it is, written to sessions/<id>.json, and then the log
      entry, which the file therefore does not hold. */
  function SessionSaved(env: Env, st: State, now: int): (r: (State, bool))
    ensures !Active(st.session) ==> r == (st, false)
    ensures Active(st.session) ==>
      (r.1 <==> Writable(env, st.disk, SessionPath(env, st.session.id)))
    ensures r.1 ==> (r.0.disk == st.disk.(sessionFiles := st.disk.sessionFiles[SessionPath(env, st.session.id) :=
                                            Json(st.session, true)])
                     && r.0.session == Log(st.session, Info, "Session saved", now))
    ensures r.0.session.(logs := st.session.logs) == st.session
    ensures r.0.disk.files == st.disk.files && r.0.disk.dirs == st.disk.dirs
  {
    if !Active(st.session) then (st, false)
    else
      var p := SessionPath(env, st.session.id);
      if !Writable(env, st.disk, p) then (Logged(st, Error, "Session save failed", now), false)
      else
        var d := st.disk.(sessionFiles := st.disk.sessionFiles[p := Json(st.session, true)]);
        (Logged(st.(disk := d), Info, "Session saved", now), true)
  }

  /** new Set(array): the first occurrence of each element, in order. */
  function Dedup(xs: seq<string>): (r: seq<string>)
    ensures NoDuplicates(r)
    ensures forall x :: x in r <==> x in xs
  {
    AddAll([], xs)
  }

  lemma {:induction false} AddAllFresh(s: seq<string>, xs: seq<string>)
    requires NoDuplicates(s + xs)
    ensures AddAll(s, xs) == s + xs
    decreases |xs|
  {
    if xs != [] {
      forall i | 0 <= i < |s| ensures s[i] != xs[0] {
        assert (s + xs)[i] == s[i] && (s + xs)[|s|] == xs[0];
      }
      assert s + xs == (s + [xs[0]]) + xs[1..];
      AddAllFresh(s + [xs[0]], xs[1..]);
    }
  }

  /** A list without duplicates comes back from a Set unchanged. */
  lemma DedupIdentity(xs: seq<string>)
    requires NoDuplicates(xs)
    ensures Dedup(xs) == xs
  {
    assert [] + xs == xs;
    AddAllFresh([], xs);
  }

  /** The session a parsed file gives: its modified files made a Set again, its logs
      defaulting to [] when the file has none. */
  function Revived(data: Session, hasLogs: bool): (r: Session)
    ensures NoDuplicates(r.modifiedFiles)
  {
    data.(modifiedFiles := Dedup(data.modifiedFiles), logs := if hasLogs then data.logs else [])
  }

  /** loadSession: a missing file logs a warning, an unparsable one an error; otherwise the
      parsed session replaces the current one, its modified files made a Set again and its
      logs defaulting to []. */
  function SessionLoaded(env: Env, st: State, sessionId: string, now: int): (r: (State, bool))
    ensures !r.1 ==> r.0.disk == st.disk && r.0.session.(logs := st.session.logs) == st.session
    ensures r.1 <==> SessionPath(env, sessionId) in st.disk.sessionFiles
                     && st.disk.sessionFiles[SessionPath(env, sessionId)].Json?
    ensures r.1 ==> var f := st.disk.sessionFiles[SessionPath(env, sessionId)];
      && r.0.disk == st.disk
      && r.0.session.tasks == f.data.tasks && r.0.session.backups == f.data.backups
      && r.0.session.id == f.data.id && r.0.session.projectDir == f.data.projectDir
      && NoDuplicates(r.0.session.modifiedFiles)
      && (forall x :: x in r.0.session.modifiedFiles <==> x in f.data.modifiedFiles)
  {
    var p := SessionPath(env, sessionId);
    if p !in st.disk.sessionFiles then (Logged(st, Warning, "Session not found", now), false)
    else match st.disk.sessionFiles[p]
      case Corrupt => (Logged(st, Error, "Session load failed", now), false)
      case Json(data, hasLogs) => (State(Log(Revived(data, hasLogs), Info, "Session loaded", now), st.disk), true)
  }

  /** Saving a session and loading it back restores every field as it was before the save;
      the log gains the entry of the load, but not that of the save, which came after the
      file was written. */
  lemma SaveLoadRoundTrip(env: Env, st: State, t1: int, t2: int)
    requires Active(st.session) && NoDuplicates(st.session.modifiedFiles)
    requires Writable(env, st.disk, SessionPath(env, st.session.id))
    ensures var (st1, saved) := SessionSaved(env, st, t1);
      var (st2, loaded) := SessionLoaded(env, st1, st.session.id, t2);
      saved && loaded && st2.session == Log(st.session, Info, "Session loaded", t2)
  {
    DedupIdentity(st.session.modifiedFiles);
  }

  /** startSession: without a directory argument, the one typed at the prompt (command line
      without callback) or the working directory. A directory that does not exist changes
      nothing. Otherwise a fresh running session, its log entry, the project analysis with
      its own entry, and a first save. */
  function SessionStarted(env: Env, st: State, projectDir: string, viaCallback: bool, answer: string,
                          cwd: string, id: string, now: int, layout: ProjectLayout): (r: (State, bool))
    requires IsGeneratedId(id)
    ensures var dir := if projectDir != "" then projectDir
                       else if env.config.enableCLI && !viaCallback && answer != "" then answer else cwd;
      && (r.1 <==> Exists(st.disk, dir))
      && (!r.1 ==> r.0 == st)
      && (r.1 ==> && r.0.session.id == id && Active(r.0.session)
                  && r.0.session.projectDir == dir
                  && r.0.session.projectInfo == Some(AnalyzeProject(layout))
                  && r.0.session.tasks == [] && r.0.session.modifiedFiles == [] && r.0.session.backups == []
                  && r.0.session.status == Running && r.0.session.startTime == Some(now)
                  && r.0.disk.files == st.disk.files)
  {
    var dir := if projectDir != "" then projectDir
               else if env.config.enableCLI && !viaCallback && answer != "" then answer else cwd;
    if !Exists(st.disk, dir) then (st, false)
    else
      var s := Log(Session(id, Some(now), dir, None, [], [], [], Running, []), Info, "Session started", now);
      var s' := Analyzed(s, layout, now);
      (SessionSaved(env, State(s', st.disk), now).0, true)
  }

  /** The session after analyzeProject: its log entry, written unless package.json fails to
      parse, and the project information. */
  function Analyzed(s: Session, layout: ProjectLayout, now: int): (r: Session)
    ensures r.projectInfo == Some(AnalyzeProject(layout))
    ensures r.logs == if layout.package.Unparsable? then s.logs else Log(s, Info, "Project analyzed", now).logs
    ensures r.(projectInfo := s.projectInfo, logs := s.logs) == s
  {
    var logged := if layout.package.Unparsable? then s else Log(s, Info, "Project analyzed", now);
    logged.(projectInfo := Some(AnalyzeProject(layout)))
  }

  // ---------------------------------------------------------------------------
  // saveFile

  /** saveFile: no session refuses. Otherwise back up what exists at the path (the outcome
      is ignored), write the content, add the path to the modified files, log, save the
      session. A failed write logs the failure. */
  function FileSaved(env: Env, st: State, filePath: string, content: string, backupId: string, now: int)
    : (r: (State, bool))
    ensures !Active(st.session) ==> r == (st, false)
    ensures Active(st.session) ==> var full := ResolvePath(st.session.projectDir, filePath);
      && (r.1 <==> Writable(env, st.disk, full))
      && (r.1 ==> full in r.0.disk.files && r.0.disk.files[full] == content
                  && r.0.session.modifiedFiles == AddUnique(st.session.modifiedFiles, full))
      && (!r.1 ==> r.0.session.modifiedFiles == st.session.modifiedFiles)
    ensures Active(st.session) ==> var full := ResolvePath(st.session.projectDir, filePath);
      var backedUp := if Exists(st.disk, full)
                      then BackedUp(env, st, full, backupId, now).0 else st;
      && r.0.session.id == st.session.id && r.0.session.projectDir == st.session.projectDir
      && r.0.session.backups == backedUp.session.backups
      && r.0.disk.dirs == st.disk.dirs
      && (r.1 ==> r.0.disk.files == backedUp.disk.files[full := content])
  {
    if !Active(st.session) then (st, false)
    else
      var full := ResolvePath(st.session.projectDir, filePath);
      var st1 := if Exists(st.disk, full) then BackedUp(env, st, full, backupId, now).0 else st;
      if !Writable(env, st1.disk, full) then (Logged(st1, Error, "File save failed", now), false)
      else
        var st2 := State(st1.session.(modifiedFiles := AddUnique(st1.session.modifiedFiles, full)),
                         st1.disk.(files := st1.disk.files[full := content]));
        (SessionSaved(env, Logged(st2, Info, "File saved", now), now).0, true)
  }

  // ---------------------------------------------------------------------------
  // exportModifiedFiles

  /** The copy of a modified file: its path relative to the project, under the export. */
  function ExportTarget(dir: string, projectDir: string, path: string): string {
    dir + "/" + RelativePath(projectDir, path)
  }

  /** The copy loop: each modified file that exists is copied in turn; the first failure
      ends the loop, leaving the copies made so far. */
  function CopyAll(env: Env, d: Disk, paths: seq<string>, dir: string, projectDir: string)
    : (r: (Disk, Option<string>))
    ensures r.0 == d.(files := r.0.files)
    decreases |paths|
  {
    if paths == [] then (d, None)
    else
      var p := paths[0];
      if p in d.dirs then (d, Some(IsDirMessage))
      else if p !in d.files then CopyAll(env, d, paths[1..], dir, projectDir)
      else
        var t := ExportTarget(dir, projectDir, p);
        if !Writable(env, d, t) then (d, Some(DeniedMessage(t)))
        else CopyAll(env, d.(files := d.files[t := d.files[p]]), paths[1..], dir, projectDir)
  }

  /** A path that is none of the targets keeps its content through the copy loop. */
  lemma {:induction false} CopyAllKeeps(env: Env, d: Disk, paths: seq<string>, dir: string, projectDir: string,
                                        q: string)
    requires q in d.files
    requires forall i :: 0 <= i < |paths| ==> ExportTarget(dir, projectDir, paths[i]) != q
    ensures q in CopyAll(env, d, paths, dir, projectDir).0.files
    ensures CopyAll(env, d, paths, dir, projectDir).0.files[q] == d.files[q]
    decreases |paths|
  {
    if paths != [] {
      var p := paths[0];
      if p !in d.dirs {
        if p !in d.files {
          CopyAllKeeps(env, d, paths[1..], dir, projectDir, q);
        } else if Writable(env, d, ExportTarget(dir, projectDir, p)) {
          var t := ExportTarget(dir, projectDir, p);
          CopyAllKeeps(env, d.(files := d.files[t := d.files[p]]), paths[1..], dir, projectDir, q);
        }
      }
    }
  }

  /** When the loop completes, every modified file that existed has its content under the
      export, provided no modified file lies in the export directory itself and no two of
      them share a relative path. */
  lemma {:induction false} CopyAllCopies(env: Env, d: Disk, paths: seq<string>, dir: string, projectDir: string,
                                         k: nat)
    requires k < |paths| && paths[k] in d.files
    requires Separate(dir, projectDir, paths)
    requires CopyAll(env, d, paths, dir, projectDir).1.None?
    ensures var files := CopyAll(env, d, paths, dir, projectDir).0.files;
      ExportTarget(dir, projectDir, paths[k]) in files
      && files[ExportTarget(dir, projectDir, paths[k])] == d.files[paths[k]]
    decreases |paths|
  {
    var p := paths[0];
    var rest := paths[1..];
    SeparateTail(dir, projectDir, paths);
    if p !in d.files {
      CopyAllCopies(env, d, rest, dir, projectDir, k - 1);
    } else {
      var t := ExportTarget(dir, projectDir, p);
      var d' := d.(files := d.files[t := d.files[p]]);
      if k == 0 {
        SeparateHead(dir, projectDir, paths);
        CopyAllKeeps(env, d', rest, dir, projectDir, t);
      } else {
        assert paths[k] == rest[k - 1];
        TargetIsElsewhere(dir, projectDir, p, paths[k]);
        CopyAllCopies(env, d', rest, dir, projectDir, k - 1);
      }
    }
  }

  /** No modified file lies in the export directory and no two share an export target. */
  predicate Separate(dir: string, projectDir: string, paths: seq<string>) {
    && (forall i :: 0 <= i < |paths| ==> !StartsWith(paths[i], dir + "/"))
    && (forall i, j :: 0 <= i < j < |paths| ==>
          ExportTarget(dir, projectDir, paths[i]) != ExportTarget(dir, projectDir, paths[j]))
  }

  lemma SeparateTail(dir: string, projectDir: string, paths: seq<string>)
    requires paths != [] && Separate(dir, projectDir, paths)
    ensures Separate(dir, projectDir, paths[1..])
  {
    var rest := paths[1..];
    forall i, j | 0 <= i < j < |rest|
      ensures ExportTarget(dir, projectDir, rest[i]) != ExportTarget(dir, projectDir, rest[j])
    {
      assert rest[i] == paths[i + 1] && rest[j] == paths[j + 1];
    }
  }

  /** The first file's target is the target of no later file. */
  lemma SeparateHead(dir: string, projectDir: string, paths: seq<string>)
    requires paths != [] && Separate(dir, projectDir, paths)
    ensures forall i :: 0 <= i < |paths[1..]| ==>
      ExportTarget(dir, projectDir, paths[1..][i]) != ExportTarget(dir, projectDir, paths[0])
  {
    forall i | 0 <= i < |paths[1..]|
      ensures ExportTarget(dir, projectDir, paths[1..][i]) != ExportTarget(dir, projectDir, paths[0])
    {
      assert paths[1..][i] == paths[i + 1];
    }
  }

  /** A target lies in the export directory, so it is not a file outside it. */
  lemma TargetIsElsewhere(dir: string, projectDir: string, p: string, q: string)
    requires !StartsWith(q, dir + "/")
    ensures ExportTarget(dir, projectDir, p) != q
  {
    var t := ExportTarget(dir, projectDir, p);
    assert t[..|dir + "/"|] == dir + "/";
  }

  datatype ExportReply =
    | ExportRefused(message: string)
    | Exported(exportId: string, exportDir: string, count: nat)
    | ExportFailed(message: string)

  /** The manifest's file list: every path made relative to the project, in order. */
  function RelativePaths(projectDir: string, paths: seq<string>): (r: seq<string>)
    ensures |r| == |paths|
    ensures forall i :: 0 <= i < |paths| ==> r[i] == RelativePath(projectDir, paths[i])
  {
    if paths == [] then [] else [RelativePath(projectDir, paths[0])] + RelativePaths(projectDir, paths[1..])
  }

  /** exportModifiedFiles: refuses without a session or without modified files; otherwise
      creates exports/<id>, copies the files, writes the manifest (every modified file,
      relative to the project, whether it still exists or not) and logs. */
  function ExportedFiles(env: Env, st: State, exportId: string, now: int): (r: (State, ExportReply))
    ensures !Active(st.session) ==> r == (st, ExportRefused("No active session."))
    ensures Active(st.session) && st.session.modifiedFiles == [] ==>
      r == (st, ExportRefused("No modified files to export."))
    ensures r.1.Exported? ==>
      && r.1.count == |st.session.modifiedFiles| && r.1.exportId == exportId
      && r.1.exportDir == ExportsDir(env) + "/" + exportId
      && r.1.exportDir + "/metadata.json" in r.0.disk.manifests
      && r.0.disk.manifests[r.1.exportDir + "/metadata.json"].files
           == RelativePaths(st.session.projectDir, st.session.modifiedFiles)
    ensures r.0.session.(logs := st.session.logs) == st.session
  {
    var s := st.session;
    if !Active(s) then (st, ExportRefused("No active session."))
    else if s.modifiedFiles == [] then (st, ExportRefused("No modified files to export."))
    else
      var dir := ExportsDir(env) + "/" + exportId;
      if dir in st.disk.dirs then (Logged(st, Error, "Export failed", now), ExportFailed(ExistsMessage(dir)))
      else
        var d1 := st.disk.(dirs := st.disk.dirs + {dir});
        var (d2, err) := CopyAll(env, d1, s.modifiedFiles, dir, s.projectDir);
        if err.Some? then (Logged(State(s, d2), Error, "Export failed", now), ExportFailed(err.value))
        else
          var meta := dir + "/metadata.json";
          if !Writable(env, d2, meta) then (Logged(State(s, d2), Error, "Export failed", now), ExportFailed(DeniedMessage(meta)))
          else
            var files := RelativePaths(s.projectDir, s.modifiedFiles);
            var d3 := d2.(manifests := d2.manifests[meta := Manifest(now, s.id, s.projectDir, files)]);
            (Logged(State(s, d3), Info, "Files exported", now), Exported(exportId, dir, |s.modifiedFiles|))
  }

  // ---------------------------------------------------------------------------
  // handleRollback

  /** The path of a backup's original, relative to the project: the key it is grouped by. */
  function OriginalRel(projectDir: string, b: Backup): string {
    RelativePath(projectDir, b.originalPath)
  }

  /** The file of every backup, relative to the project, in order. */
  function OriginalRels(bs: seq<Backup>, projectDir: string): (r: seq<string>)
    ensures |r| == |bs|
    ensures forall i :: 0 <= i < |bs| ==> r[i] == OriginalRel(projectDir, bs[i])
  {
    if bs == [] then [] else OriginalRels(bs[..|bs| - 1], projectDir) + [OriginalRel(projectDir, bs[|bs| - 1])]
  }

  /** Object.keys(fileBackups): each backed-up file once, in the order of its first backup. */
  function FilesOf(bs: seq<Backup>, projectDir: string): (r: seq<string>)
    ensures NoDuplicates(r)
    ensures forall f :: f in r <==> f in OriginalRels(bs, projectDir)
    ensures bs != [] ==> r != []
  {
    if bs == [] then []
    else
      var init := bs[..|bs| - 1];
      var r := AddUnique(FilesOf(init, projectDir), OriginalRel(projectDir, bs[|bs| - 1]));
      assert forall i :: 0 <= i < |init| ==> init[i] == bs[i];
      r
  }

  /** fileBackups[file]: the backups of that file, in the order they were made. */
  function BackupsOf(bs: seq<Backup>, projectDir: string, file: string): (r: seq<Backup>)
    ensures forall b :: b in r <==> b in bs && OriginalRel(projectDir, b) == file
    ensures r != [] <==> file in FilesOf(bs, projectDir)
  {
    if bs == [] then []
    else
      var init := bs[..|bs| - 1];
      var b := bs[|bs| - 1];
      assert bs == init + [b];
      BackupsOf(init, projectDir, file) + (if OriginalRel(projectDir, b) == file then [b] else [])
  }

  /** The fileBackups object that handleRollback builds: for each file, its backups in order. */
  function GroupsOf(bs: seq<Backup>, projectDir: string): map<string, seq<Backup>> {
    if bs == [] then map[]
    else
      var g := GroupsOf(bs[..|bs| - 1], projectDir);
      var rel := OriginalRel(projectDir, bs[|bs| - 1]);
      g[rel := (if rel in g then g[rel] else []) + [bs[|bs| - 1]]]
  }

  /** One more backup: the step of the grouping loop. */
  lemma GroupStep(bs: seq<Backup>, projectDir: string, i: nat)
    requires i < |bs|
    ensures var rel := OriginalRel(projectDir, bs[i]);
      var g := GroupsOf(bs[..i], projectDir);
      && FilesOf(bs[..i + 1], projectDir) == AddUnique(FilesOf(bs[..i], projectDir), rel)
      && GroupsOf(bs[..i + 1], projectDir) == g[rel := (if rel in g then g[rel] else []) + [bs[i]]]
  {
    assert bs[..i + 1][..i] == bs[..i];
  }

  /** The groups are keyed by exactly the backed-up files and each holds that file's backups. */
  lemma {:induction false} GroupsOfFacts(bs: seq<Backup>, projectDir: string)
    ensures forall f :: f in GroupsOf(bs, projectDir) <==> f in FilesOf(bs, projectDir)
    ensures forall f :: f in GroupsOf(bs, projectDir) ==> GroupsOf(bs, projectDir)[f] == BackupsOf(bs, projectDir, f)
  {
    if bs != [] {
      var init := bs[..|bs| - 1];
      GroupsOfFacts(init, projectDir);
      assert forall f :: f in GroupsOf(init, projectDir) <==> BackupsOf(init, projectDir, f) != [];
    }
  }

  /** The answer to a numbered menu of count entries: parseInt(answer), one-based, when it
      is in range, otherwise the first entry. */
  function MenuIndex(answer: string, count: nat): (i: nat)
    ensures count > 0 ==> i < count
    ensures (Tasks.ParseInt(answer).None? || !(1 <= Tasks.ParseInt(answer).value <= count)) ==> i == 0
  {
    match Tasks.ParseInt(answer)
    case Some(n) => if 1 <= n <= count then n - 1 else 0
    case None => 0
  }

  /** Typing entry k of the menu, as a digit from 1 to 9, selects entry k. */
  lemma MenuDigit(d: char, count: nat)
    requires '1' <= d <= '9' && d as int - '0' as int <= count
    ensures MenuIndex([d], count) == d as int - '1' as int
  {
    Tasks.ParseDigit(d, []);
    assert [d] + [] == [d];
  }

  function Timestamp(b: Backup): int { b.timestamp }

  datatype RollbackReply =
    | RollbackRefused(message: string)
    | RollbackDone(backupId: string, file: string)
    | RollbackFailed(message: string)

  /** handleRollback: refuses without a session or without backups. With a backup id, restores
      that backup. Otherwise, on the command line or with a callback, offers the backed-up files,
      then the chosen file's backups newest first, and restores the one chosen. */
  function RolledBack(env: Env, st: State, backupId: string, viaCallback: bool, fileAnswer: string,
                      backupAnswer: string, now: int): (r: (State, RollbackReply))
    ensures !Active(st.session) ==> r == (st, RollbackRefused("No active session."))
    ensures Active(st.session) && st.session.backups == [] ==> r == (st, RollbackRefused("No backups available."))
    ensures r.1.RollbackRefused? ==> r.0 == st
    ensures r.1.RollbackDone? ==> (exists b :: b in st.session.backups && b.id == r.1.backupId)
                                  && r.0 == Restored(env, st, r.1.backupId, now).0
    ensures backupId != "" && r.1.RollbackDone? ==>
      r.1.backupId == backupId
      && r.1.file == OriginalRel(st.session.projectDir, FindBackup(st.session.backups, backupId).value)
  {
    var s := st.session;
    if !Active(s) then (st, RollbackRefused("No active session."))
    else if s.backups == [] then (st, RollbackRefused("No backups available."))
    else if backupId != "" then
      var (st', ok) := Restored(env, st, backupId, now);
      if ok then (st', RollbackDone(backupId, OriginalRel(s.projectDir, FindBackup(s.backups, backupId).value)))
      else (st', RollbackFailed("Failed to restore backup."))
    else if !env.config.enableCLI && !viaCallback then
      (st, RollbackRefused("Cannot use interactive rollback in non-CLI mode."))
    else
      var (file, chosen) := MenuChoice(s, fileAnswer, backupAnswer);
      var (st', ok) := Restored(env, st, chosen.id, now);
      if ok then (st', RollbackDone(chosen.id, file)) else (st', RollbackFailed("Failed to restore backup"))
  }

  /** The two menus of the interactive rollback: the file the first answer picks from the
      files with backups, and the backup the second answer picks from that file's backups,
      newest first. */
  function MenuChoice(s: Session, fileAnswer: string, backupAnswer: string): (r: (string, Backup))
    requires s.backups != []
    ensures r.0 in FilesOf(s.backups, s.projectDir)
    ensures r.1 in BackupsOf(s.backups, s.projectDir, r.0)
  {
    var files := FilesOf(s.backups, s.projectDir);
    var file := files[MenuIndex(fileAnswer, |files|)];
    var group := BackupsOf(s.backups, s.projectDir, file);
    SortDescFacts(group, Timestamp);
    var sorted := SortDesc(group, Timestamp);
    var chosen := sorted[MenuIndex(backupAnswer, |sorted|)];
    assert chosen in multiset(group);
    (file, chosen)
  }

  /** In the interactive rollback, answering 1 to the second question restores the newest
      backup of the file chosen by the first. */
  lemma RollbackNewestFirst(env: Env, st: State, viaCallback: bool, fileAnswer: string,
                            backupAnswer: string, now: int)
    requires Active(st.session) && st.session.backups != []
    requires env.config.enableCLI || viaCallback
    requires Tasks.ParseInt(backupAnswer) == Some(1)
    ensures var files := FilesOf(st.session.backups, st.session.projectDir);
      var file := files[MenuIndex(fileAnswer, |files|)];
      var group := BackupsOf(st.session.backups, st.session.projectDir, file);
      var r := RolledBack(env, st, "", viaCallback, fileAnswer, backupAnswer, now);
      r.1.RollbackDone? ==>
        r.1.file == file
        && exists b :: b in group && b.id == r.1.backupId
                       && forall c :: c in group ==> c.timestamp <= b.timestamp
  {
    var s := st.session;
    var choice := MenuChoice(s, fileAnswer, backupAnswer);
    var r := RolledBack(env, st, "", viaCallback, fileAnswer, backupAnswer, now);
    assert r.1.RollbackDone? ==> r.1.file == choice.0 && r.1.backupId == choice.1.id;
    var files := FilesOf(s.backups, s.projectDir);
    var file := files[MenuIndex(fileAnswer, |files|)];
    var group := BackupsOf(s.backups, s.projectDir, file);
    SortDescFirstIsMax(group, Timestamp);
    assert choice.1 == SortDesc(group, Timestamp)[0];
  }

  /** Saving over an existing file and then rolling back with the id its backup was given
      puts back the content the file had before the save. */
  lemma SaveRollbackRoundTrip(env: Env, st: State, filePath: string, content: string, backupId: string,
                              t1: int, t2: int)
    requires Active(st.session) && IsGeneratedId(backupId)
    requires forall i :: 0 <= i < |st.session.backups| ==> st.session.backups[i].id != backupId
    requires var full := ResolvePath(st.session.projectDir, filePath);
      && full in st.disk.files && Writable(env, st.disk, full)
      && Writable(env, st.disk, BackupPath(env, backupId, full)) && BackupPath(env, backupId, full) != full
    ensures var full := ResolvePath(st.session.projectDir, filePath);
      var (st1, saved) := FileSaved(env, st, filePath, content, backupId, t1);
      var (st2, reply) := RolledBack(env, st1, backupId, false, "", "", t2);
      && saved && st1.disk.files[full] == content
      && reply == RollbackDone(backupId, RelativePath(st.session.projectDir, full))
      && st2.disk.files[full] == st.disk.files[full]
  {
    var full := ResolvePath(st.session.projectDir, filePath);
    var bp := BackupPath(env, backupId, full);
    var b := Backup(backupId, full, bp, t1);
    SaveBacksUp(env, st, filePath, content, backupId, t1);
    var st1 := FileSaved(env, st, filePath, content, backupId, t1).0;
    assert backupId != "" by { assert |backupId| == 8; }
    RollbackRestores(env, st1, b, t2);
  }

  /** The save half of SaveRollbackRoundTrip: the save succeeds and records a backup under the
      fresh id that holds the content from before. */
  lemma SaveBacksUp(env: Env, st: State, filePath: string, content: string, backupId: string, t1: int)
    requires Active(st.session)
    requires forall i :: 0 <= i < |st.session.backups| ==> st.session.backups[i].id != backupId
    requires var full := ResolvePath(st.session.projectDir, filePath);
      && full in st.disk.files && Writable(env, st.disk, full)
      && Writable(env, st.disk, BackupPath(env, backupId, full)) && BackupPath(env, backupId, full) != full
    ensures var full := ResolvePath(st.session.projectDir, filePath);
      var bp := BackupPath(env, backupId, full);
      var (st1, saved) := FileSaved(env, st, filePath, content, backupId, t1);
      && saved && Active(st1.session) && st1.session.projectDir == st.session.projectDir
      && FindBackup(st1.session.backups, backupId) == Some(Backup(backupId, full, bp, t1))
      && st1.disk.files == st.disk.files[bp := st.disk.files[full]][full := content]
      && st1.disk.dirs == st.disk.dirs
  {
    var full := ResolvePath(st.session.projectDir, filePath);
    var bp := BackupPath(env, backupId, full);
    var b := Backup(backupId, full, bp, t1);
    FindBackupFresh(st.session.backups, b);
    var st1 := FileSaved(env, st, filePath, content, backupId, t1).0;
    assert st1.session.backups == st.session.backups + [b];
  }

  /** The rollback half of SaveRollbackRoundTrip: rolling back to a recorded backup whose copy
      exists copies it over the original path. */
  lemma RollbackRestores(env: Env, st: State, b: Backup, now: int)
    requires Active(st.session) && b.id != "" && FindBackup(st.session.backups, b.id) == Some(b)
    requires b.backupPath in st.disk.files && Writable(env, st.disk, b.originalPath)
    ensures var (st2, reply) := RolledBack(env, st, b.id, false, "", "", now);
      && reply == RollbackDone(b.id, RelativePath(st.session.projectDir, b.originalPath))
      && st2.disk.files[b.originalPath] == st.disk.files[b.backupPath]
  {
    assert st.session.backups != [];
  }

  // ---------------------------------------------------------------------------
  // executeTask

  /** The selected files as buildContext reads them. */
  function Texts(files: seq<RelevantFile>): (r: seq<FileText>)
    ensures |r| == |files|
    ensures forall i :: 0 <= i < |files| ==> r[i] == FileText(files[i].path, files[i].content)
  {
    seq(|files|, i requires 0 <= i < |files| => FileText(files[i].path, files[i].content))
  }

  /** What findRelevantFiles returns for this description. */
  function SelectedFiles(env: Env, info: ProjectInfo, projectDir: string, tree: seq<FileIndex.Entry>, desc: string)
    : seq<RelevantFile>
  {
    KeywordShape(desc);
    Select(FileIndex.CandidateFiles(projectDir, tree, info, env.config.ignoreDirs), Keywords(desc),
           env.config.maxFileSizeKb * 1024, env.config.maxContextFiles)
  }

  /** The task type the prompt names: the caller's; else, on the command line without a
      callback, the menu answer; else the keyword heuristic. */
  function EffectiveType(env: Env, taskType: Option<string>, viaCallback: bool, menuAnswer: string, desc: string)
    : (r: string)
    ensures taskType.Some? && taskType.value != "" ==> r == taskType.value
    ensures !(taskType.Some? && taskType.value != "") ==> r in Tasks.TaskTypes
  {
    if taskType.Some? && taskType.value != "" then taskType.value
    else if env.config.enableCLI && !viaCallback then Tasks.ChooseTaskType(menuAnswer)
    else Tasks.InferTaskType(desc)
  }

  /** The request sent to the completion service. */
  function TaskPrompt(env: Env, info: ProjectInfo, projectDir: string, tree: seq<FileIndex.Entry>, desc: string,
                      taskType: string): Prompt
  {
    BuildPrompt(info, ContextOf(projectDir, Texts(SelectedFiles(env, info, projectDir, tree, desc))), taskType, desc)
  }

  /** The prompt of executeTask for a session with project information. */
  function SessionPrompt(env: Env, s: Session, tree: seq<FileIndex.Entry>, desc: string, taskType: Option<string>,
                         viaCallback: bool, menuAnswer: string): Prompt
    requires s.projectInfo.Some?
  {
    TaskPrompt(env, s.projectInfo.value, s.projectDir, tree, desc,
               EffectiveType(env, taskType, viaCallback, menuAnswer, desc))
  }

  /** What reading projectInfo.framework from a null project information throws. */
  const NullInfoMessage := "Cannot read properties of null (reading 'framework')"

  /** A running task as it ends: its status, end time, and result or error. */
  function Finish(t: Tasks.Task, status: Tasks.TaskStatus, endTime: int, result: Option<Tasks.TaskResult>,
                  error: Option<string>): Tasks.Task {
    t.(status := status, endTime := Some(endTime), result := result, error := error)
  }

  /** The running task, last in the list, takes its final form, and the outcome is logged. */
  function Finished(s: Session, t: Tasks.Task, level: Level, message: string, doneAt: int): (r: Session)
    requires s.tasks != []
    ensures r == s.(tasks := s.tasks[..|s.tasks| - 1] + [t], logs := r.logs)
  {
    Log(s.(tasks := s.tasks[..|s.tasks| - 1] + [t]), level, message, doneAt)
  }

  /** executeTask: without a session or an API key no task is created. Otherwise one task is
      appended in the RUNNING state and ends COMPLETED with the code and explanation of the
      response, or FAILED with the error: that of the completion service, the one thrown when
      the session has no project information, or the one boxify throws in CLI mode, in which
      case the task keeps its result. */
  function TaskRun(env: Env, st: State, desc: string, taskType: Option<string>, viaCallback: bool,
                   menuAnswer: string, tree: seq<FileIndex.Entry>, service: Prompt -> Result<string>,
                   columns: ConsoleBox.Columns, taskId: string, now: int, doneAt: int): (r: (State, Option<Tasks.Task>))
    ensures r.1.None? <==> !Active(st.session) || !env.hasApiKey
    ensures r.1.None? ==> r.0 == st
    ensures r.1.Some? ==> var t := r.1.value;
      var display := env.config.enableCLI && !viaCallback;
      && r.0.disk == st.disk
      && r.0.session == st.session.(tasks := st.session.tasks + [t], logs := r.0.session.logs)
      && t.id == taskId && t.description == desc && t.taskType == taskType
      && t.startTime == now && t.endTime == Some(doneAt)
      && (t.status == Tasks.Completed || t.status == Tasks.Failed)
      && (t.status == Tasks.Failed ==> t.error.Some?)
      && (st.session.projectInfo.None? ==> t.status == Tasks.Failed && t.result.None?)
      && (st.session.projectInfo.Some? ==>
            var response := service(SessionPrompt(env, st.session, tree, desc, taskType, viaCallback, menuAnswer));
            && (t.status == Tasks.Completed <==>
                  response.Success? && !BoxFails(display, Extract(response.value).code, columns))
            && (response.Success? ==>
                  t.result == Some(Tasks.TaskResult(Extract(response.value).code, Extract(response.value).explanation)))
            && (t.status == Tasks.Completed ==> t.error.None?)
            && (response.Failure? ==> t.result.None? && t.error == Some(response.error))
            && (response.Success? && BoxFails(display, Extract(response.value).code, columns) ==>
                  t.error == Some(ConsoleBox.InvalidCount(columns.count - 2))))
  {
    var s := st.session;
    if !Active(s) || !env.hasApiKey then (st, None)
    else
      var task := Tasks.Task(taskId, desc, taskType, Tasks.Running, now, None, None, None);
      var s1 := Log(s.(tasks := s.tasks + [task]), Info, "Task started", now);
      assert s1.tasks[..|s1.tasks| - 1] == s.tasks;
      if s.projectInfo.None? then
        var t := Finish(task, Tasks.Failed, doneAt, None, Some(NullInfoMessage));
        (State(Finished(s1, t, Error, "Task failed", doneAt), st.disk), Some(t))
      else
        var s2 := Log(s1, Info, "Identified relevant files", now);
        var (s3, t) := Concluded(s2, task, service(SessionPrompt(env, s, tree, desc, taskType, viaCallback, menuAnswer)),
                                 env.config.enableCLI && !viaCallback, columns, doneAt);
        (State(s3, st.disk), Some(t))
  }

  /** Whether showing the generated code throws: in CLI mode without a callback a non-empty
      code block is drawn with boxify, which throws on a terminal of fewer than two columns. */
  predicate BoxFails(display: bool, code: string, columns: ConsoleBox.Columns) {
    display && code != [] && columns.Columns? && columns.count < 2
  }

  /** Showing a completed task's code in CLI mode without a callback: when boxify throws,
      the catch finishes the same task again as FAILED with the error, its result still set,
      and logs "Task failed". */
  function Shown(s: Session, t: Tasks.Task, display: bool, columns: ConsoleBox.Columns, doneAt: int)
    : (r: (Session, Tasks.Task))
    requires s.tasks != [] && t.result.Some?
  {
    var code := t.result.value.code;
    if display && code != [] && ConsoleBox.Boxify(code, columns).Failure? then
      var t' := Finish(t, Tasks.Failed, doneAt, t.result, Some(ConsoleBox.Boxify(code, columns).error));
      (Finished(s, t', Error, "Task failed", doneAt), t')
    else (s, t)
  }

  /** The end of executeTask's try: the task completes with the split response and
      "Task completed" is logged; then, when showing the code throws, the catch finishes the
      same task again as FAILED with the error, its result still set, and logs "Task failed".
      A failed response goes straight to the catch. */
  function Concluded(s: Session, task: Tasks.Task, response: Result<string>, display: bool,
                     columns: ConsoleBox.Columns, doneAt: int): (r: (Session, Tasks.Task))
    requires s.tasks != []
    ensures r.0 == s.(tasks := s.tasks[..|s.tasks| - 1] + [r.1], logs := r.0.logs)
    ensures r.1 == task.(status := r.1.status, endTime := Some(doneAt), result := r.1.result, error := r.1.error)
    ensures r.1.status == Tasks.Completed || r.1.status == Tasks.Failed
    ensures r.1.status == Tasks.Completed <==>
              response.Success? && !BoxFails(display, Extract(response.value).code, columns)
    ensures response.Success? ==>
              r.1.result == Some(Tasks.TaskResult(Extract(response.value).code, Extract(response.value).explanation))
    ensures r.1.status == Tasks.Completed ==> r.1.error.None?
    ensures response.Failure? ==> r.1.result.None? && r.1.error == Some(response.error)
    ensures response.Success? && BoxFails(display, Extract(response.value).code, columns) ==>
              r.1.error == Some(ConsoleBox.InvalidCount(columns.count - 2))
  {
    match response
    case Success(text) =>
      var e := Extract(text);
      var t := Finish(task, Tasks.Completed, doneAt, Some(Tasks.TaskResult(e.code, e.explanation)), None);
      var s1 := Finished(s, t, Info, "Task completed", doneAt);
      ConsoleBox.BoxifyFails(e.code, columns);
      if columns.Columns? && columns.count < 2 then
        ConsoleBox.BoxifyError(e.code, columns.count);
        Shown(s1, t, display, columns, doneAt)
      else
        Shown(s1, t, display, columns, doneAt)
    case Failure(message) =>
      var t := Finish(task, Tasks.Failed, doneAt, None, Some(message));
      (Finished(s, t, Error, "Task failed", doneAt), t)
  }

  /** Appending an entry and capping keeps the previous last entry just before it. */
  lemma LastTwoLogs(logs: seq<LogEntry>, e: LogEntry)
    requires logs != []
    ensures var r := CapLog(logs + [e]); |r| >= 2 && r[|r| - 2..] == [logs[|logs| - 1], e]
  {
    var l := logs + [e];
    var r := CapLog(l);
    assert r[|r| - 2] == l[|l| - 2];
    assert r[|r| - 1] == l[|l| - 1];
  }

  /** When showing the code throws, the log records the completion and then the failure of
      the same task. */
  lemma CompletedThenFailed(s: Session, task: Tasks.Task, text: string, display: bool,
                            columns: ConsoleBox.Columns, doneAt: int)
    requires s.tasks != [] && BoxFails(display, Extract(text).code, columns)
    ensures var (s', t) := Concluded(s, task, Success(text), display, columns, doneAt);
      && t.status == Tasks.Failed && t.result.Some?
      && |s'.logs| >= 2
      && s'.logs[|s'.logs| - 2..] == [LogEntry(doneAt, Info, "Task completed"), LogEntry(doneAt, Error, "Task failed")]
  {
    var e := Extract(text);
    var t := Finish(task, Tasks.Completed, doneAt, Some(Tasks.TaskResult(e.code, e.explanation)), None);
    var s1 := Finished(s, t, Info, "Task completed", doneAt);
    ConsoleBox.BoxifyFails(e.code, columns);
    var t' := Finish(t, Tasks.Failed, doneAt, t.result, Some(ConsoleBox.Boxify(e.code, columns).error));
    assert Concluded(s, task, Success(text), display, columns, doneAt) == Shown(s1, t, display, columns, doneAt);
    assert Shown(s1, t, display, columns, doneAt) == (Finished(s1, t', Error, "Task failed", doneAt), t');
    assert s1.logs[|s1.logs| - 1] == LogEntry(doneAt, Info, "Task completed");
    LastTwoLogs(s1.logs, LogEntry(doneAt, Error, "Task failed"));
  }

  // ---------------------------------------------------------------------------
  // the assistant process

  /** The process: its environment, currentSession, and the disk. Each method takes the steps
      of the app.js function of the same name, in its order, and ends in the state its
      function above describes. */
  class Assistant {
    const env: Env
    var session: Session
    var disk: Disk

    function Current(): State
      reads this
    {
      State(session, disk)
    }

    /** The log never holds more than 1000 entries and the modified files form a set. */
    predicate Valid()
      reads this
    {
      |session.logs| <= MaxLogs && NoDuplicates(session.modifiedFiles)
    }

    constructor (env: Env, disk: Disk)
      ensures Valid()
      ensures this.env == env && session == NoSession && this.disk == disk
    {
      this.env := env;
      session := NoSession;
      this.disk := disk;
    }

    method AddLogEntry(level: Level, message: string, now: int) returns (entry: LogEntry)
      modifies this
      ensures entry == LogEntry(now, level, message)
      ensures Current() == Logged(old(Current()), level, message, now)
    {
      entry := LogEntry(now, level, message);
      var logs := session.logs + [entry];
      if |logs| > MaxLogs {
        logs := logs[|logs| - MaxLogs..];
      }
      session := session.(logs := logs);
    }

    method BackupFile(filePath: string, backupId: string, now: int) returns (result: Option<string>)
      requires Valid() && IsGeneratedId(backupId)
      modifies this
      ensures Valid()
      ensures (Current(), result) == BackedUp(env, old(Current()), filePath, backupId, now)
    {
      if filePath !in disk.files {
        var _ := AddLogEntry(Error, "Backup failed", now);
        return None;
      }
      var content := disk.files[filePath];
      var backupPath := BackupPath(env, backupId, filePath);
      if !Writable(env, disk, backupPath) {
        var _ := AddLogEntry(Error, "Backup failed", now);
        return None;
      }
      disk := disk.(files := disk.files[backupPath := content]);
      session := session.(backups := session.backups + [Backup(backupId, filePath, backupPath, now)]);
      var _ := AddLogEntry(Info, "File backed up", now);
      result := Some(backupId);
    }

    method RestoreFromBackup(backupId: string, now: int) returns (ok: bool)
      requires Valid()
      modifies this
      ensures Valid()
      ensures (Current(), ok) == Restored(env, old(Current()), backupId, now)
    {
      var backup := FindBackup(session.backups, backupId);
      if backup.None? {
        return false;
      }
      var b := backup.value;
      if b.backupPath !in disk.files {
        var _ := AddLogEntry(Error, "Restore failed", now);
        return false;
      }
      var content := disk.files[b.backupPath];
      if !Writable(env, disk, b.originalPath) {
        var _ := AddLogEntry(Error, "Restore failed", now);
        return false;
      }
      disk := disk.(files := disk.files[b.originalPath := content]);
      var _ := AddLogEntry(Info, "File restored from backup", now);
      ok := true;
    }

    method SaveSession(now: int) returns (ok: bool)
      requires Valid()
      modifies this
      ensures Valid()
      ensures (Current(), ok) == SessionSaved(env, old(Current()), now)
    {
      if !Active(session) {
        return false;
      }
      var path := SessionPath(env, session.id);
      if !Writable(env, disk, path) {
        var _ := AddLogEntry(Error, "Session save failed", now);
        return false;
      }
      disk := disk.(sessionFiles := disk.sessionFiles[path := Json(session, true)]);
      var _ := AddLogEntry(Info, "Session saved", now);
      ok := true;
    }

    method SaveFile(filePath: string, content: string, backupId: string, now: int) returns (ok: bool)
      requires Valid() && IsGeneratedId(backupId)
      modifies this
      ensures Valid()
      ensures (Current(), ok) == FileSaved(env, old(Current()), filePath, content, backupId, now)
    {
      if !Active(session) {
        return false;
      }
      var fullPath := ResolvePath(session.projectDir, filePath);
      if Exists(disk, fullPath) {
        var _ := BackupFile(fullPath, backupId, now);
      }
      if !Writable(env, disk, fullPath) {
        var _ := AddLogEntry(Error, "File save failed", now);
        return false;
      }
      disk := disk.(files := disk.files[fullPath := content]);
      session := session.(modifiedFiles := AddUnique(session.modifiedFiles, fullPath));
      var _ := AddLogEntry(Info, "File saved", now);
      var _ := SaveSession(now);
      ok := true;
    }

    method LoadSession(sessionId: string, now: int) returns (ok: bool)
      requires Valid()
      modifies this
      ensures Valid()
      ensures (Current(), ok) == SessionLoaded(env, old(Current()), sessionId, now)
    {
      var path := SessionPath(env, sessionId);
      if path !in disk.sessionFiles {
        var _ := AddLogEntry(Warning, "Session not found", now);
        return false;
      }
      var file := disk.sessionFiles[path];
      if file.Corrupt? {
        var _ := AddLogEntry(Error, "Session load failed", now);
        return false;
      }
      session := Revived(file.data, file.hasLogs);
      var _ := AddLogEntry(Info, "Session loaded", now);
      ok := true;
    }

    method StartSession(projectDir: string, viaCallback: bool, answer: string, cwd: string, id: string,
                        now: int, layout: ProjectLayout) returns (ok: bool)
      requires Valid() && IsGeneratedId(id)
      modifies this
      ensures Valid()
      ensures (Current(), ok) == SessionStarted(env, old(Current()), projectDir, viaCallback, answer, cwd, id, now, layout)
    {
      var dir := projectDir;
      if dir == "" {
        if env.config.enableCLI && !viaCallback {
          dir := if answer != "" then answer else cwd;
        } else {
          dir := cwd;
        }
      }
      if !Exists(disk, dir) {
        return false;
      }
      session := Session(id, Some(now), dir, None, [], [], [], Running, []);
      var _ := AddLogEntry(Info, "Session started", now);
      if !layout.package.Unparsable? {
        var _ := AddLogEntry(Info, "Project analyzed", now);
      }
      session := session.(projectInfo := Some(AnalyzeProject(layout)));
      var _ := SaveSession(now);
      ok := true;
    }

    method ExportModifiedFiles(exportId: string, now: int) returns (reply: ExportReply)
      requires Valid() && IsGeneratedId(exportId)
      modifies this
      ensures Valid()
      ensures (Current(), reply) == ExportedFiles(env, old(Current()), exportId, now)
    {
      if !Active(session) {
        return ExportRefused("No active session.");
      }
      if session.modifiedFiles == [] {
        return ExportRefused("No modified files to export.");
      }
      var exportDir := ExportsDir(env) + "/" + exportId;
      if exportDir in disk.dirs {
        var _ := AddLogEntry(Error, "Export failed", now);
        return ExportFailed(ExistsMessage(exportDir));
      }
      disk := disk.(dirs := disk.dirs + {exportDir});
      var paths := session.modifiedFiles;
      var projectDir := session.projectDir;
      ghost var start := disk;
      var i := 0;
      while i < |paths|
        invariant 0 <= i <= |paths|
        invariant session == old(session)
        invariant CopyAll(env, disk, paths[i..], exportDir, projectDir)
               == CopyAll(env, start, paths, exportDir, projectDir)
      {
        assert paths[i..][1..] == paths[i + 1..];
        var filePath := paths[i];
        if filePath in disk.dirs {
          var _ := AddLogEntry(Error, "Export failed", now);
          return ExportFailed(IsDirMessage);
        }
        if filePath in disk.files {
          var targetPath := ExportTarget(exportDir, projectDir, filePath);
          if !Writable(env, disk, targetPath) {
            var _ := AddLogEntry(Error, "Export failed", now);
            return ExportFailed(DeniedMessage(targetPath));
          }
          disk := disk.(files := disk.files[targetPath := disk.files[filePath]]);
        }
        i := i + 1;
      }
      assert paths[i..] == [];
      var metadataPath := exportDir + "/metadata.json";
      if !Writable(env, disk, metadataPath) {
        var _ := AddLogEntry(Error, "Export failed", now);
        return ExportFailed(DeniedMessage(metadataPath));
      }
      var files := RelativePaths(projectDir, paths);
      disk := disk.(manifests := disk.manifests[metadataPath := Manifest(now, session.id, projectDir, files)]);
      var _ := AddLogEntry(Info, "Files exported", now);
      reply := Exported(exportId, exportDir, |paths|);
    }

    /** The grouping loop of handleRollback: the backed-up files in order of first backup,
        and for each the list of its backups. */
    method GroupBackups() returns (files: seq<string>, groups: map<string, seq<Backup>>)
      ensures files == FilesOf(session.backups, session.projectDir)
      ensures groups == GroupsOf(session.backups, session.projectDir)
    {
      var bs := session.backups;
      var projectDir := session.projectDir;
      files := [];
      groups := map[];
      var i := 0;
      while i < |bs|
        invariant 0 <= i <= |bs|
        invariant files == FilesOf(bs[..i], projectDir)
        invariant groups == GroupsOf(bs[..i], projectDir)
      {
        var b := bs[i];
        var relativePath := OriginalRel(projectDir, b);
        GroupStep(bs, projectDir, i);
        var group := if relativePath in groups then groups[relativePath] else [];
        groups := groups[relativePath := group + [b]];
        files := AddUnique(files, relativePath);
        i := i + 1;
      }
      assert bs[..i] == bs;
    }

    method HandleRollback(backupId: string, viaCallback: bool, fileAnswer: string, backupAnswer: string,
                          now: int) returns (reply: RollbackReply)
      requires Valid()
      modifies this
      ensures Valid()
      ensures (Current(), reply) == RolledBack(env, old(Current()), backupId, viaCallback, fileAnswer, backupAnswer, now)
    {
      if !Active(session) {
        return RollbackRefused("No active session.");
      }
      if session.backups == [] {
        return RollbackRefused("No backups available.");
      }
      if backupId != "" {
        var success := RestoreFromBackup(backupId, now);
        if success {
          var backup := FindBackup(session.backups, backupId);
          return RollbackDone(backupId, RelativePath(session.projectDir, backup.value.originalPath));
        }
        return RollbackFailed("Failed to restore backup.");
      }
      if !env.config.enableCLI && !viaCallback {
        return RollbackRefused("Cannot use interactive rollback in non-CLI mode.");
      }
      var files, fileBackups := GroupBackups();
      GroupsOfFacts(session.backups, session.projectDir);
      var selectedFile := files[MenuIndex(fileAnswer, |files|)];
      var backups := SortDesc(fileBackups[selectedFile], Timestamp);
      SortDescFacts(fileBackups[selectedFile], Timestamp);
      var selectedBackup := backups[MenuIndex(backupAnswer, |backups|)];
      var success := RestoreFromBackup(selectedBackup.id, now);
      if success {
        reply := RollbackDone(selectedBackup.id, selectedFile);
      } else {
        reply := RollbackFailed("Failed to restore backup");
      }
    }

    /** The middle of executeTask: the relevant files, the log line that reports them, the
        context built from their texts, and the prompt. */
    method GatherPrompt(desc: string, taskType: Option<string>, viaCallback: bool, menuAnswer: string,
                        tree: seq<FileIndex.Entry>, now: int) returns (prompt: Prompt)
      requires Valid() && session.projectInfo.Some?
      modifies this
      ensures Valid()
      ensures Current() == Logged(old(Current()), Info, "Identified relevant files", now)
      ensures prompt == SessionPrompt(env, old(session), tree, desc, taskType, viaCallback, menuAnswer)
    {
      var info := session.projectInfo.value;
      var projectDir := session.projectDir;
      var relevantFiles := FindRelevantFiles(projectDir, tree, info, desc, env.config.ignoreDirs,
                                             env.config.maxFileSizeKb, env.config.maxContextFiles,
                                             FileIndex.HasSourceExtension);
      var _ := AddLogEntry(Info, "Identified relevant files", now);
      var context := BuildContext(projectDir, Texts(relevantFiles));
      var effectiveType := EffectiveType(env, taskType, viaCallback, menuAnswer, desc);
      prompt := BuildPrompt(info, context, effectiveType, desc);
    }

    method ExecuteTask(desc: string, taskType: Option<string>, viaCallback: bool, menuAnswer: string,
                       tree: seq<FileIndex.Entry>, service: Prompt -> Result<string>,
                       columns: ConsoleBox.Columns, taskId: string, now: int, doneAt: int)
      returns (task: Option<Tasks.Task>)
      requires Valid() && IsGeneratedId(taskId)
      modifies this
      ensures Valid()
      ensures (Current(), task)
           == TaskRun(env, old(Current()), desc, taskType, viaCallback, menuAnswer, tree, service, columns, taskId, now, doneAt)
    {
      if !Active(session) || !env.hasApiKey {
        return None;
      }
      ghost var s0 := session;
      var running := Tasks.Task(taskId, desc, taskType, Tasks.Running, now, None, None, None);
      session := session.(tasks := session.tasks + [running]);
      var _ := AddLogEntry(Info, "Task started", now);
      ghost var s1 := session;
      assert s1.projectInfo == s0.projectInfo && s1.projectDir == s0.projectDir;
      if session.projectInfo.None? {
        var t := Finish(running, Tasks.Failed, doneAt, None, Some(NullInfoMessage));
        session := session.(tasks := session.tasks[..|session.tasks| - 1] + [t]);
        var _ := AddLogEntry(Error, "Task failed", doneAt);
        return Some(t);
      }
      var prompt := GatherPrompt(desc, taskType, viaCallback, menuAnswer, tree, now);
      assert prompt == SessionPrompt(env, s0, tree, desc, taskType, viaCallback, menuAnswer);
      var t := Conclude(running, service(prompt), viaCallback, columns, doneAt);
      task := Some(t);
    }

    /** The end of executeTask: the running task, the last of the session's tasks, is
        replaced by its completed or failed form and the outcome is logged; in CLI mode
        without a callback the code is then shown, and a boxify that throws sends the task
        through the catch. */
    method Conclude(running: Tasks.Task, response: Result<string>, viaCallback: bool,
                    columns: ConsoleBox.Columns, doneAt: int) returns (t: Tasks.Task)
      requires Valid() && session.tasks != []
      modifies this
      ensures Valid()
      ensures var display := env.config.enableCLI && !viaCallback;
        Current() == State(Concluded(old(session), running, response, display, columns, doneAt).0, old(disk))
        && t == Concluded(old(session), running, response, display, columns, doneAt).1
    {
      match response {
        case Success(text) =>
          var code, explanation := ExtractCodeAndExplanation(text);
          t := Finish(running, Tasks.Completed, doneAt, Some(Tasks.TaskResult(code, explanation)), None);
          session := session.(tasks := session.tasks[..|session.tasks| - 1] + [t]);
          var _ := AddLogEntry(Info, "Task completed", doneAt);
          t := ShowCode(t, viaCallback, columns, doneAt);
        case Failure(message) =>
          t := Finish(running, Tasks.Failed, doneAt, None, Some(message));
          session := session.(tasks := session.tasks[..|session.tasks| - 1] + [t]);
          var _ := AddLogEntry(Error, "Task failed", doneAt);
      }
    }

    /** The display block of executeTask for the task just completed, the last of the
        session's tasks. */
    method ShowCode(completed: Tasks.Task, viaCallback: bool, columns: ConsoleBox.Columns, doneAt: int)
      returns (t: Tasks.Task)
      requires Valid() && session.tasks != [] && completed.result.Some?
      modifies this
      ensures Valid()
      ensures var display := env.config.enableCLI && !viaCallback;
        Current() == State(Shown(old(session), completed, display, columns, doneAt).0, old(disk))
        && t == Shown(old(session), completed, display, columns, doneAt).1
    {
      t := completed;
      var code := completed.result.value.code;
      if env.config.enableCLI && !viaCallback && code != [] {
        var shown := ConsoleBox.Boxify(code, columns);
        if shown.Failure? {
          t := Finish(t, Tasks.Failed, doneAt, t.result, Some(shown.error));
          session := session.(tasks := session.tasks[..|session.tasks| - 1] + [t]);
          var _ := AddLogEntry(Error, "Task failed", doneAt);
        }
      }
    }
  }
}
