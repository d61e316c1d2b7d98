# Project Assistant: file selection, prompt context, sessions and the Terminal shell

This project models, in Dafny, two parts of the Project Assistant repository.

- **The assistant's core, `project-assistant-pro/app.js`.** Given a task description, the assistant:
  - picks the relevant source files of a Next.js/React project (keywords, relevance score, size and zero-score filters, sort and cap);
  - extracts a context from them (imports, components, hooks, file excerpts);
  - builds the prompt for the completion service;
  - splits the answer into code and explanation;
  - keeps the session state: the tasks, the set of modified files, the backups and a log capped at 1000 entries.

  The session operations are modelled too: start, save and load a session; back up, save and restore files; export the modified files; and roll back to a backup, directly or through the two numbered menus.
- **The `Terminal` component of the matrix-css framework.** It is a command interpreter with an output list, a history of entered lines (newest first, at most 50), a history position and an input line. It merges the built-in commands with the caller's and moves through the history with the arrow keys.

Each source operation that works by changing state is a method of a class: `Sessions.Assistant` stands for the process with its `currentSession` and the disk, and `TerminalShell.Terminal` for the component. Each method is proved to end in the state a specification function gives (`Sessions.BackedUp`, `Sessions.RolledBack`, `TerminalShell.Executed`, …), and the properties of the system are proved as lemmas about those functions.

The loops of `findRelevantFiles` and `buildContext` are methods as well: `Relevance.CollectFiles`, `Relevance.ScoreFiles`, `ContextBuilder.ScanImports`, `ContextBuilder.ScanHooks` and `ContextBuilder.BuildContext`. Each is proved equal to a recursive definition.

Pure computations are functions:
- the keywords;
- the score;
- task-type inference;
- the code/explanation split;
- `boxify`;
- project analysis.

Being functions, they are deterministic; for example, splitting the same answer twice gives the same pair.

What the outside world decides is a parameter of the model:
- the random identifiers of `generateId`, stated as eight lower-case hex digits;
- the clock;
- the environment: configuration, application directory, paths that cannot be written, and whether `OPENAI_API_KEY` is set;
- the answers typed at the command line;
- the files the project holds;
- the completion service, as a function from the prompt to `Success(text)` or `Failure(message)`.

The file system is a map from path to content, plus a set of directories, the saved sessions and the export manifests.

Files:
- `wrappers.dfy`: Option and Result.
- `text.dfy`: the JavaScript string and collection built-ins the code uses. These include `trim`, `split`/`join`, `indexOf`/`includes`, `toLowerCase` (ASCII), `padEnd`, `repeat`, `Set.add` and `slice`.
- `sorting.dfy`: the stable `Array.prototype.sort` with a descending-key comparator.
- `project_analyzer.dfy`: `analyzeProject`.
- `file_index.dfy`: `findFiles` and the file patterns of `findRelevantFiles`.
- `relevance.dfy`: the rest of `findRelevantFiles`.
- `context_builder.dfy`: `buildContext`.
- `prompt.dfy`: the excerpts and the fields of the prompt.
- `response_parser.dfy`: `extractCodeAndExplanation`.
- `console_box.dfy`: `boxify`.
- `tasks.dfy`: task types, task-type inference and the task-type menu.
- `sessions.dfy`: `currentSession` and the session operations.
- `terminal.dfy`: the Terminal component.

## Model

| member | source | states |
|---|---|---|
| Text.Lower | project-assistant-pro/app.js:407 | toLowerCase keeps the length and lower-cases each ASCII capital, leaving every other character as it is |
| Text.TrimIsInfix | project-assistant-pro/framework/sh-creator/matrix-css/src/components/effects/Terminal.tsx:73 | trim returns a contiguous piece of its input: everything cut from either end is whitespace, and the result neither starts nor ends with whitespace |
| Text.TrimIdempotent | project-assistant-pro/framework/sh-creator/matrix-css/src/components/effects/Terminal.tsx:93 | trimming twice is trimming once |
| Text.IndexOf | project-assistant-pro/app.js:935 | indexOf returns the first position at or after the start where the pattern occurs, or none when it occurs nowhere after it |
| Text.ContainsIff | project-assistant-pro/app.js:703 | includes holds exactly when the pattern occurs at some position |
| Text.CountOccurrences | project-assistant-pro/app.js:466-468 | the count of matches is positive exactly when the keyword occurs in the text |
| Text.Split | project-assistant-pro/framework/sh-creator/matrix-css/src/components/effects/Terminal.tsx:73 | split on a character gives at least one piece and no piece contains the separator |
| Text.JoinSplit | project-assistant-pro/framework/sh-creator/matrix-css/src/components/effects/Terminal.tsx:73 | joining the pieces of a split with the separator gives the original string back |
| Text.SplitJoin | project-assistant-pro/app.js:761-762 | splitting a join of separator-free pieces gives the pieces back |
| Text.BeforeFirst | project-assistant-pro/app.js:548 | split(' as ')[0] is a prefix of the name; it is the whole name when " as " does not occur, and otherwise ends just before the first " as " |
| Text.PadEnd | project-assistant-pro/app.js:963 | padEnd keeps a long enough string, otherwise extends it with spaces to exactly the width |
| Text.Repeat | project-assistant-pro/app.js:956-957 | repeat gives n copies of the character |
| Text.AddUnique | project-assistant-pro/app.js:1005 | Set.add keeps the earlier elements in order, adds the element only if absent, and keeps a duplicate-free list duplicate-free |
| Text.AddAll | project-assistant-pro/app.js:544 | adding a list to a Set gives exactly the union and keeps it duplicate-free |
| Text.Take | project-assistant-pro/app.js:484 | slice(0, n) is the first min(n, length) elements |
| Text.NatString | project-assistant-pro/app.js:957 | String(n) of a non-negative integer is a non-empty run of decimal digits |
| Text.IntString | project-assistant-pro/app.js:957 | String(n) is non-empty and starts with a minus sign exactly when n is negative |
| Sorting.SortDescFacts | project-assistant-pro/app.js:483 | the sort with comparator b.score - a.score yields a non-increasing sequence that is a permutation of its input |
| Sorting.SortDescStable | project-assistant-pro/app.js:483 | the sort is stable: the elements of any one key keep their original relative order |
| Sorting.SortDescFirstIsMax | project-assistant-pro/app.js:1406 | the first element after the sort is an input element with the greatest key |
| Sorting.InsertSorted | project-assistant-pro/app.js:483 | inserting into a sorted sequence keeps it sorted |
| Sorting.InsertMembers | project-assistant-pro/app.js:483 | inserting adds exactly one occurrence of the element |
| ProjectAnalyzer.FrameworkPrecedence | project-assistant-pro/app.js:338-349 | the framework is Next.js iff next is present, React iff react but not next, and so on down to Unknown when none of the four is present |
| ProjectAnalyzer.RouterOnlyForNext | project-assistant-pro/app.js:377-386 | a router type other than Unknown implies Next.js; for Next.js it is App Router iff app/ exists, Pages Router iff pages/ exists and app/ does not |
| ProjectAnalyzer.NoPackageNoDetection | project-assistant-pro/app.js:318-374 | with no readable package.json the default information is returned as it stands, TypeScript not detected |
| ProjectAnalyzer.DetectMembers | project-assistant-pro/app.js:354-369 | a feature is in a detected list iff one of its table rows has a present package |
| ProjectAnalyzer.DetectAll | project-assistant-pro/app.js:354-369 | when every row fires, the list is the table's features in table order |
| ProjectAnalyzer.DetectedLists | project-assistant-pro/app.js:354-369 | styling, state management and UI libraries each hold exactly the features of their table that fire |
| ProjectAnalyzer.DevDependenciesWin | project-assistant-pro/app.js:336-338 | for a name in devDependencies, presence in the merged map is decided by the devDependencies version |
| ProjectAnalyzer.NextAppRouterScenario | project-assistant-pro/app.js:335-386 | a package.json with next and an app/ directory gives Next.js with the App Router |
| FileIndex.IgnoreRule | project-assistant-pro/app.js:502-519 | a file is found with an ignore list iff it is found without one and none of its enclosing directories is ignored |
| FileIndex.UnderMember | project-assistant-pro/app.js:507-514 | the files found under a subdirectory are its own files with that directory prepended |
| FileIndex.BaseDirs | project-assistant-pro/app.js:413-423 | non-Next.js projects search src; Next.js searches app (App Router) or pages, then components |
| FileIndex.CandidatesOnly | project-assistant-pro/app.js:427-445 | every collected file passes the file-name filter |
| FileIndex.CandidatesHaveSourceExtension | project-assistant-pro/app.js:439 | with the intended filter every collected file ends in .js, .jsx, .ts or .tsx |
| FileIndex.AsWrittenKeepsOnlyBraces | project-assistant-pro/app.js:439 | with the filter as written a collected path must contain a literal brace |
| FileIndex.AsWrittenRejectsPage | project-assistant-pro/app.js:439 | "/proj/app/page.tsx" has a source extension yet the filter as written does not match it |
| FileIndex.NoBraceNoMatch | project-assistant-pro/app.js:439 | the filter as written rejects every path without a brace |
| FileIndex.WalkBraceFree | project-assistant-pro/app.js:502-519 | a walk of a tree with brace-free names reports brace-free directory and file names only |
| FileIndex.JoinBraceFree | project-assistant-pro/app.js:507 | path.join of brace-free components has no brace |
| FileIndex.AsWrittenCollectsNothing | project-assistant-pro/app.js:427-445 | with the filter as written, allFiles is empty for every project whose directory and entry names have no brace |
| Relevance.TokensLowerWords | project-assistant-pro/app.js:407-410 | splitting a normalised lower-case description on whitespace gives lower-case word tokens |
| Relevance.KeywordShape | project-assistant-pro/app.js:407-410 | every keyword is a run of lower-case word characters longer than 3 |
| Relevance.Normalize | project-assistant-pro/app.js:408 | replace(/[^\w\s]/g, ' ') keeps word and space characters and turns every other character into a space, position by position |
| Relevance.LongerThan3 | project-assistant-pro/app.js:410 | the filter keeps exactly the words longer than 3 characters |
| Relevance.TokensJoin | project-assistant-pro/app.js:409 | splitting a space-joined list of tokens on whitespace gives the tokens back |
| Relevance.LoginBugKeywords | project-assistant-pro/app.js:407-410 | "Fix the login bug" has the single keyword "login" |
| Relevance.BasenameIsLastSegment | project-assistant-pro/app.js:459 | path.basename is the last segment of the path: a suffix without '/', which is the whole path or follows a '/' |
| Relevance.ScorePositive | project-assistant-pro/app.js:461-471 | a score is positive iff some keyword occurs in the lower-cased basename or content |
| Relevance.ScoreFile | project-assistant-pro/app.js:461-469 | the scoring loop computes the score: 3 per keyword in the basename plus the number of its case-insensitive occurrences in the content |
| Relevance.CandidateIff | project-assistant-pro/app.js:449-480 | a scored entry is kept iff it comes from a file within the size limit, readable, with a positive score |
| Relevance.SizeLimitBoundary | project-assistant-pro/app.js:455 | a file of exactly maxFileSizeKb*1024 bytes is considered and one byte more is skipped |
| Relevance.SelectFacts | project-assistant-pro/app.js:483-484 | the selection has min(maxContextFiles, candidates) entries, sorted by non-increasing score, all candidates, and none left out scores higher than one selected |
| Relevance.TopFacts | project-assistant-pro/app.js:483-484 | sort-then-slice returns the top entries in order, drawn from the input |
| Relevance.SelectedAreAdmitted | project-assistant-pro/app.js:455-476 | every selected file has a positive score and comes from a collected file within the size limit whose content it carries |
| Relevance.CollectFiles | project-assistant-pro/app.js:427-445 | the pattern loop collects, in order, the files of each base directory that the file-name filter keeps; the filter is a parameter, so the loop is proved for the code's literal-brace match and for the intended extension test alike |
| Relevance.ScoreFiles | project-assistant-pro/app.js:449-480 | the scoring loop keeps exactly the candidates, in file order |
| Relevance.FindRelevantFiles | project-assistant-pro/app.js:403-497 | for a given file-name filter, the result is the top maxContextFiles files by score among the files that filter collects |
| Relevance.AsWrittenSelectsNothing | project-assistant-pro/app.js:403-484 | with the filter as the code writes it, findRelevantFiles returns no file for any description in a project whose names have no brace |
| ContextBuilder.SpanWhile | project-assistant-pro/app.js:539 | a greedy regex run stops at the first character outside its class |
| ContextBuilder.MatchImportAt | project-assistant-pro/app.js:539 | a match starts with "import", ends inside the text, and captures a non-empty source without quotes |
| ContextBuilder.ImportsAreMatches | project-assistant-pro/app.js:539-541 | every import the exec loop finds is a match of the regex at some position at or after the start |
| ContextBuilder.ScanImports | project-assistant-pro/app.js:541-558 | the exec loop yields the successive matches of the import regex |
| ContextBuilder.DefaultImportRoundTrip | project-assistant-pro/app.js:539 | `import Name from 'src'` is matched as a default import of Name from src |
| ContextBuilder.NamedImportRoundTrip | project-assistant-pro/app.js:539 | `import {list} from 'src'` is matched as the named list from src |
| ContextBuilder.NamespaceImportRoundTrip | project-assistant-pro/app.js:539 | `import * as Name from 'src'` is matched as a namespace import |
| ContextBuilder.MixedImportNotMatched | project-assistant-pro/app.js:539 | an identifier followed by something other than whitespace (as in `import React, {…}`) is no match at that position |
| ContextBuilder.MixedImportExample | project-assistant-pro/app.js:539 | `import React,` followed by anything is not matched at its start |
| ContextBuilder.HookMatchShape | project-assistant-pro/app.js:561 | every hook match is "use" followed by at least one identifier character, not only a capital |
| ContextBuilder.HookRoundTrip | project-assistant-pro/app.js:561 | `function useX()` is matched with the name useX |
| ContextBuilder.HookNames | project-assistant-pro/app.js:561-564 | every recorded hook has the hook shape |
| ContextBuilder.ScanHooks | project-assistant-pro/app.js:562-564 | the exec loop pushes the names of the successive hook matches |
| ContextBuilder.ItemNames | project-assistant-pro/app.js:547-548 | each named import yields its trimmed name cut before " as " |
| ContextBuilder.UpperOnlyIff | project-assistant-pro/app.js:549-551 | a name is kept as a component iff it starts with a capital |
| ContextBuilder.ComponentsOf | project-assistant-pro/app.js:546-557 | components start with a capital; a namespace import adds none |
| ContextBuilder.Assign | project-assistant-pro/app.js:536 | assigning a property keeps earlier keys in place and appends a new key at the end |
| ContextBuilder.LookupAssign | project-assistant-pro/app.js:536 | after fileContents[k] = v, k reads v and every other key reads what it did |
| ContextBuilder.AddMatchesMembers | project-assistant-pro/app.js:544-557 | the imports and components gain exactly the sources and components of the matches |
| ContextBuilder.ContextWellFormed | project-assistant-pro/app.js:526-570 | the context's imports and components are duplicate-free, every component starts with a capital and every hook has the hook shape |
| ContextBuilder.ContextMembers | project-assistant-pro/app.js:534-558 | the context's imports and components are exactly those of all the files' matches |
| ContextBuilder.ContextFileContents | project-assistant-pro/app.js:535-536 | each relative path maps to the content of the last file with that path |
| ContextBuilder.BuildContext | project-assistant-pro/app.js:526-570 | the file loop builds the context the recursive definition describes |
| ContextBuilder.RecordImports | project-assistant-pro/app.js:541-558 | the match loop records each match's source and components |
| ContextBuilder.RecordComponents | project-assistant-pro/app.js:547-551 | the forEach adds the names to the component set |
| Prompting.ExcerptFacts | project-assistant-pro/app.js:761-762 | an excerpt is a prefix of the file with at most 200 lines, and a file of fewer than 200 lines is its own excerpt |
| Prompting.Excerpts | project-assistant-pro/app.js:757-763 | the excerpts are the first three files, in order, each cut to its excerpt |
| Prompting.BuildPrompt | project-assistant-pro/app.js:766-805 | the prompt says Yes/No for TypeScript, "None detected" for an empty state-management list, carries the task type, the task and the excerpts |
| ResponseParser.MatchBlockAt | project-assistant-pro/app.js:920 | a code block match ends inside the text and its body holds no fence, as the lazy `[\s\S]*?` stops at the first closing fence |
| ResponseParser.ScanBlocks | project-assistant-pro/app.js:924-926 | the exec loop collects the bodies of the successive blocks |
| ResponseParser.ExtractCodeAndExplanation | project-assistant-pro/app.js:918-942 | code and explanation are those of the specification of the split |
| ResponseParser.NoFenceNoCode | project-assistant-pro/app.js:928-931 | an answer without a fence has no code blocks, so the code is empty and the explanation is the whole answer |
| ResponseParser.RenderExtract | project-assistant-pro/app.js:918-942 | for an explanation followed by one fenced block, the split returns the code and the trimmed explanation, or the whole answer when the explanation is empty |
| ResponseParser.RenderFirstFence | project-assistant-pro/app.js:935 | the first fence is right after the explanation and no block starts before it |
| ResponseParser.RenderBlock | project-assistant-pro/app.js:920 | a block with a listed language tag is matched with its code as the body |
| ResponseParser.LanguagesExclusive | project-assistant-pro/app.js:920 | at one position at most one language alternative, tried in order, applies |
| ConsoleBox.MaxLength | project-assistant-pro/app.js:952 | the maximum is at least every line's length and is the length of some line |
| ConsoleBox.Width | project-assistant-pro/app.js:951-954 | the width is the smaller of the longest line and columns - 4, and NaN when columns is undefined |
| ConsoleBox.Prefix | project-assistant-pro/app.js:962 | substring(0, end) is a prefix clamped to 0 and to the length |
| ConsoleBox.BoxifyFails | project-assistant-pro/app.js:956-957 | boxify throws exactly when the terminal has fewer than two columns |
| ConsoleBox.BoxifyError | project-assistant-pro/app.js:954-957 | on a terminal of c < 2 columns the RangeError reads "Invalid count value: " followed by c - 2 |
| ConsoleBox.RowLength | project-assistant-pro/app.js:961-965 | for a width of at least 3 every row is exactly width + 4 characters |
| ConsoleBox.FitShape | project-assistant-pro/app.js:961-963 | a short line is padded with spaces, a long one cut to width - 3 and ended with "..." |
| ConsoleBox.WideTerminalShowsLines | project-assistant-pro/app.js:951-966 | on a wide terminal every line is shown whole, padded to the longest |
| ConsoleBox.UndefinedColumnsFrame | project-assistant-pro/app.js:949-968 | without a column count the frame has no horizontal rule and the lines are not padded |
| Tasks.InferTaskType | project-assistant-pro/app.js:700-714 | the inferred type is one of the five task types |
| Tasks.InferTaskTypeCases | project-assistant-pro/app.js:703-713 | each outcome holds iff its own substrings occur and no earlier rule's do |
| Tasks.InferFixExample | project-assistant-pro/app.js:705-706 | "Fix the login bug" is a bug fix |
| Tasks.InferCreateExample | project-assistant-pro/app.js:703-704 | "Create a fix" is a new component: the first rule wins |
| Tasks.DigitRun | project-assistant-pro/app.js:739 | parseInt reads the longest run of digits |
| Tasks.NatStringValue | project-assistant-pro/app.js:739 | the digits String writes for n >= 0 denote n |
| Tasks.ParseIntString | project-assistant-pro/app.js:739 | parseInt reads back every integer String writes: parseInt(String(n)) == n |
| Tasks.ParseUnsignedDecimal | project-assistant-pro/app.js:739 | for a string starting with a digit 1-9, parseInt is the value of its leading digits |
| Tasks.ChooseTaskType | project-assistant-pro/app.js:737-745 | the menu gives entry n for an answer read as n in 1..5 and the first entry otherwise |
| Tasks.ChooseByDigit | project-assistant-pro/app.js:738-741 | typing a digit 1-5 selects that entry |
| Sessions.CapLog | project-assistant-pro/app.js:286-288 | the log keeps its newest min(length, 1000) entries, in order |
| Sessions.CapLogAppend | project-assistant-pro/app.js:280-288 | capping after every append keeps the same entries as capping once |
| Sessions.Log | project-assistant-pro/app.js:271-291 | addLogEntry changes only the log, which ends with the new entry and holds at most 1000 |
| Sessions.FindBackup | project-assistant-pro/app.js:615 | find returns a backup with the id, from the list, and none exactly when no backup has it |
| Sessions.FindBackupFresh | project-assistant-pro/app.js:615 | a backup with a fresh id is the one found by it |
| Sessions.BackedUp | project-assistant-pro/app.js:578-607 | backing up succeeds iff the file exists and the copy is writable; then exactly one record is appended and the copy holds the file's content; otherwise only an error is logged |
| Sessions.Restored | project-assistant-pro/app.js:614-637 | an unknown id changes nothing; otherwise the original is overwritten with the copy iff the copy exists and the original is writable, else an error is logged |
| Sessions.BackupRestoreRoundTrip | project-assistant-pro/app.js:578-637 | backing up, overwriting and restoring gives the file its backed-up content |
| Sessions.SessionSaved | project-assistant-pro/app.js:1043-1062 | without a session nothing happens; otherwise the session file holds the session iff writable, and only the log changes in the session |
| Sessions.Dedup | project-assistant-pro/app.js:1081 | new Set(list) is duplicate-free with the same members |
| Sessions.DedupIdentity | project-assistant-pro/app.js:1050-1081 | a duplicate-free list survives the Set round trip unchanged |
| Sessions.Revived | project-assistant-pro/app.js:1079-1083 | the loaded modified files are duplicate-free |
| Sessions.SessionLoaded | project-assistant-pro/app.js:1068-1105 | loading succeeds iff the file exists and parses; then the stored tasks, backups, id and directory come back with the modified files as a set; otherwise only the log changes |
| Sessions.SaveLoadRoundTrip | project-assistant-pro/app.js:1043-1105 | saving then loading gives back the session as it was before the save, plus the load's log entry |
| Sessions.SessionStarted | project-assistant-pro/app.js:1112-1183 | the directory is the argument, else the typed answer, else the working directory; a missing path changes nothing; otherwise a fresh running session with the project analysis |
| Sessions.Analyzed | project-assistant-pro/app.js:1161-1162 | the session gains the project analysis and the "Project analyzed" entry, which is missing when package.json fails to parse; nothing else changes |
| Sessions.FileSaved | project-assistant-pro/app.js:977-1038 | an existing target is backed up first whatever the outcome; the save succeeds iff the target is writable, then it holds the content and the path is added once to the modified files |
| Sessions.CopyAll | project-assistant-pro/app.js:1247-1262 | the copy loop changes only file contents |
| Sessions.CopyAllKeeps | project-assistant-pro/app.js:1247-1262 | a file no copy targets keeps its content |
| Sessions.CopyAllCopies | project-assistant-pro/app.js:1247-1262 | when the loop completes every existing modified file has its content at its export path |
| Sessions.RelativePaths | project-assistant-pro/app.js:1269-1271 | the manifest lists each modified file relative to the project, in order |
| Sessions.ExportedFiles | project-assistant-pro/app.js:1226-1310 | no session or no modified files is refused with nothing changed; a completed export reports the count and directory and writes the manifest |
| Sessions.FilesOf | project-assistant-pro/app.js:1373-1387 | the backed-up files are listed once each, exactly those with a backup |
| Sessions.BackupsOf | project-assistant-pro/app.js:1374-1382 | a file's group holds exactly its backups and is non-empty iff the file is listed |
| Sessions.GroupsOfFacts | project-assistant-pro/app.js:1373-1387 | the grouping object's keys are the listed files and each value is that file's backups in order |
| Sessions.MenuIndex | project-assistant-pro/app.js:1400-1401 | an answer out of range or not a number selects the first entry |
| Sessions.MenuDigit | project-assistant-pro/app.js:1400-1401 | typing k selects entry k |
| Sessions.MenuChoice | project-assistant-pro/app.js:1398-1426 | the chosen file has backups and the chosen backup is one of them |
| Sessions.RolledBack | project-assistant-pro/app.js:1317-1453 | refusals change nothing; a successful rollback restores a backup of the session, the one named when an id is given |
| Sessions.RollbackNewestFirst | project-assistant-pro/app.js:1406-1426 | answering 1 at the second menu restores the newest backup of the chosen file |
| Sessions.SaveRollbackRoundTrip | project-assistant-pro/app.js:977-1038 | saving over a file and rolling back by the backup's id restores the earlier content |
| Sessions.SaveBacksUp | project-assistant-pro/app.js:997-1005 | a save over an existing file records its backup under the fresh id |
| Sessions.RollbackRestores | project-assistant-pro/app.js:1333-1349 | rolling back by id restores the copy and reports the relative path |
| Sessions.EffectiveType | project-assistant-pro/app.js:699-752 | the caller's type wins; otherwise the type is one of the five |
| Sessions.Finished | project-assistant-pro/app.js:822-833 | ending a task replaces the running task and logs |
| Sessions.TaskRun | project-assistant-pro/app.js:645-911 | no task without a session or API key; otherwise one task appended that ends COMPLETED with the split answer iff the service succeeds and showing the code does not throw; FAILED with the service's error and no result, with the null-information error, or, when boxify throws in CLI mode without a callback, with "Invalid count value: columns - 2" and the result kept; the prompt's files are selected with the intended extension filter, not the code's |
| Sessions.Concluded | project-assistant-pro/app.js:817-896 | the running task is replaced, ends COMPLETED iff the response succeeded and showing the code does not throw, keeps the split answer as its result whenever the response succeeded, and carries the service's or boxify's error otherwise |
| Sessions.CompletedThenFailed | project-assistant-pro/app.js:830-896 | when boxify throws, the task ends FAILED with its result and the log ends with "Task completed" followed by "Task failed" |

| Sessions.Assistant.constructor | project-assistant-pro/app.js:88-98 | the process starts with the idle session |
| Sessions.Assistant.AddLogEntry | project-assistant-pro/app.js:271-291 | appends the entry and caps the log |
| Sessions.Assistant.BackupFile | project-assistant-pro/app.js:578-607 | ends in the state and result of BackedUp |
| Sessions.Assistant.RestoreFromBackup | project-assistant-pro/app.js:614-637 | ends in the state and result of Restored |
| Sessions.Assistant.SaveSession | project-assistant-pro/app.js:1043-1062 | ends in the state and result of SessionSaved |
| Sessions.Assistant.SaveFile | project-assistant-pro/app.js:977-1038 | ends in the state and result of FileSaved |
| Sessions.Assistant.LoadSession | project-assistant-pro/app.js:1068-1105 | ends in the state and result of SessionLoaded |
| Sessions.Assistant.StartSession | project-assistant-pro/app.js:1112-1183 | ends in the state and result of SessionStarted |
| Sessions.Assistant.ExportModifiedFiles | project-assistant-pro/app.js:1226-1310 | the copy loop, checked against CopyAll, ends in the state and reply of ExportedFiles |
| Sessions.Assistant.GroupBackups | project-assistant-pro/app.js:1373-1387 | the grouping loop builds the listed files and the groups |
| Sessions.Assistant.HandleRollback | project-assistant-pro/app.js:1317-1453 | ends in the state and reply of RolledBack |
| Sessions.Assistant.GatherPrompt | project-assistant-pro/app.js:689-805 | finds the files with the intended extension filter, logs, builds the context and the prompt for the effective type |
| Sessions.Assistant.ExecuteTask | project-assistant-pro/app.js:645-911 | ends in the state and task of TaskRun, including the boxify failure in CLI mode; its prompt uses the intended extension filter |
| Sessions.Assistant.Conclude | project-assistant-pro/app.js:817-896 | ends in the state and task of Concluded: completion and its log entry, then the display step, or the catch for a failed response |
| Sessions.Assistant.ShowCode | project-assistant-pro/app.js:838-845 | ends in the state and task of Shown: a task whose code boxify cannot draw is finished again as FAILED and "Task failed" is logged; otherwise nothing changes |
| TerminalShell.Merge | project-assistant-pro/framework/sh-creator/matrix-css/src/components/effects/Terminal.tsx:51-54 | the merged object has unique keys, each with a handler |
| TerminalShell.MergeOverrides | project-assistant-pro/framework/sh-creator/matrix-css/src/components/effects/Terminal.tsx:36-54 | the caller's commands win, the other built-ins stay, and in the model's key order (insertion order) the built-in names come first; Object.keys would list integer-like caller names before them |
| TerminalShell.Parse | project-assistant-pro/framework/sh-creator/matrix-css/src/components/effects/Terminal.tsx:73-75 | the command is the first piece of trim().split(' '), the arguments the rest |
| TerminalShell.ParseBlank | project-assistant-pro/framework/sh-creator/matrix-css/src/components/effects/Terminal.tsx:73-77 | the command is empty iff the line is blank |
| TerminalShell.ParseRoundTrip | project-assistant-pro/framework/sh-creator/matrix-css/src/components/effects/Terminal.tsx:73-75 | the first piece and the arguments joined by spaces give the trimmed line back |
| TerminalShell.Run | project-assistant-pro/framework/sh-creator/matrix-css/src/components/effects/Terminal.tsx:43-48 | clear returns "", echo joins its arguments, a custom command returns what its function does |
| TerminalShell.OutputTail | project-assistant-pro/framework/sh-creator/matrix-css/src/components/effects/Terminal.tsx:77-90 | at most one line follows the echo |
| TerminalShell.Executed | project-assistant-pro/framework/sh-creator/matrix-css/src/components/effects/Terminal.tsx:68-99 | the input is cleared, the position reset to -1, and the history gains the line, capped at 50, iff it is not blank; the output uses the corrected own-key test, so an inherited name such as "constructor" is reported as not found |
| TerminalShell.EchoFirst | project-assistant-pro/framework/sh-creator/matrix-css/src/components/effects/Terminal.tsx:70 | except after clear, earlier output is kept and the echo follows it, then at most one line |
| TerminalShell.UnknownCommandReported | project-assistant-pro/framework/sh-creator/matrix-css/src/components/effects/Terminal.tsx:88-89 | a command that is not in the table adds "Command not found: …" after its echo |
| TerminalShell.CustomCommandShown | project-assistant-pro/framework/sh-creator/matrix-css/src/components/effects/Terminal.tsx:80-87 | a non-empty result is shown, an empty one is not, a thrown error is shown as "Error executing command: …" |
| TerminalShell.ClearEmpties | project-assistant-pro/framework/sh-creator/matrix-css/src/components/effects/Terminal.tsx:43-46 | clear leaves the output empty |
| TerminalShell.ExecutedInRange | project-assistant-pro/framework/sh-creator/matrix-css/src/components/effects/Terminal.tsx:93-98 | the position stays in range, the history within 50, and a non-blank line becomes the newest entry ahead of the earlier ones |
| TerminalShell.Up | project-assistant-pro/framework/sh-creator/matrix-css/src/components/effects/Terminal.tsx:108-115 | ArrowUp moves one entry older and shows it when there is one, and otherwise changes nothing |
| TerminalShell.Down | project-assistant-pro/framework/sh-creator/matrix-css/src/components/effects/Terminal.tsx:116-127 | ArrowDown moves one entry newer, from 0 to an empty line at -1, and does nothing at -1 |
| TerminalShell.UpDownRoundTrip | project-assistant-pro/framework/sh-creator/matrix-css/src/components/effects/Terminal.tsx:108-127 | up then down returns to the same state when the line shows its entry |
| TerminalShell.UpTimes | project-assistant-pro/framework/sh-creator/matrix-css/src/components/effects/Terminal.tsx:108-115 | n + 1 presses from a fresh line show the entry n places back in the history |
| TerminalShell.UpN | project-assistant-pro/framework/sh-creator/matrix-css/src/components/effects/Terminal.tsx:108-115 | repeated ArrowUp keeps the position in range |
| TerminalShell.PrototypeNameAccepted | project-assistant-pro/framework/sh-creator/matrix-css/src/components/effects/Terminal.tsx:79 | the test as written lets "constructor" through although it names no command |
| TerminalShell.ParseWord | project-assistant-pro/framework/sh-creator/matrix-css/src/components/effects/Terminal.tsx:73-75 | a single lower-case word is that command with no arguments |
| TerminalShell.Terminal.constructor | project-assistant-pro/framework/sh-creator/matrix-css/src/components/effects/Terminal.tsx:29-54 | the component starts empty with the merged command table |
| TerminalShell.Terminal.ExecuteCommand | project-assistant-pro/framework/sh-creator/matrix-css/src/components/effects/Terminal.tsx:68-99 | ends in the state Executed gives, keeping the position in range; like Executed it dispatches on the corrected own-key test |
| TerminalShell.Terminal.HandleInputChange | project-assistant-pro/framework/sh-creator/matrix-css/src/components/effects/Terminal.tsx:101-103 | only the input line changes |
| TerminalShell.Terminal.HandleInputKeyDown | project-assistant-pro/framework/sh-creator/matrix-css/src/components/effects/Terminal.tsx:105-128 | Enter executes the line, the arrows move as Up and Down, other keys change nothing |
| TerminalShell.Terminal.RunInitialCommands | project-assistant-pro/framework/sh-creator/matrix-css/src/components/effects/Terminal.tsx:56-59 | the mount effect executes the initial commands in turn |
| TerminalShell.ExecutedAllHistory | project-assistant-pro/framework/sh-creator/matrix-css/src/components/effects/Terminal.tsx:56-59 | after the initial commands the position is -1 with an empty line and the history within 50 |

## Left out

- The network client and the completion request are left out. The completion service is a parameter returning `Success(text)` or `Failure(message)`.
- The Express server, the WebSocket broadcasts, `route.js`, the spinner, and the banner and display functions are left out. They are I/O only.
- The readline prompts are left out. Each typed answer is a parameter. The question after a completed task about saving the code (app.js 847-870) is not modelled; the save itself is `saveFile`. Of the display block, only the boxify call that can throw is modelled; the console output itself is not.
- The terminal's column count, `process.stdout.columns`, is a parameter of Sessions.TaskRun and the methods that show the code.
- Sessions.Finished, Sessions.TaskRun, Sessions.Concluded and every method of Sessions.Assistant run to completion in the model: each operation is atomic. In the code they are `async` functions that interleave at each `await`, and `/api/task` starts `executeTask` without awaiting it (app.js 1625). Interleavings are not modelled. For example, a task that finishes after another task was started updates its own object, which is no longer last in the task list, and a `loadSession` during a task sends the task's later log entries to the new session, whose task list lacks the task.
- `generateId` is not modelled. Ids are parameters that are eight hex digits; the round-trip lemmas ask for a fresh id.
- `Date.now` and `toLocaleString` are not modelled. Times are parameters.
- Log entries carry no id and no data object.
- The file system is simplified:
  - `path.resolve` and `path.join` normalisation are left out.
  - `path.relative` is modelled as stripping the project prefix, so paths outside the project keep their absolute form.
  - The `mkdirSync` of parent directories is left out, and symlinks are left out.
  - A write fails only for a protected path or a directory.
- The wording of the system and user messages is left out. The prompt is a record of the values it interpolates.
- Property order of plain objects is simplified. `Object.keys`/`Object.entries` put integer-like keys first, but the model keeps insertion order for the file contents, the rollback groups and the Terminal's command table. TerminalShell.MergeOverrides and the `help` text therefore list the built-in names first even when the caller defines a command such as "7", which `Object.keys` would list before them.
- A relative path equal to an inherited property name such as "constructor" is left out. As a rollback group key it would make the grouping throw.
- Text.Lower: only ASCII letters are lower-cased. JavaScript's `toLowerCase` also maps other Unicode letters.
- Text.IsSpace: the whitespace class is the set of code points of `\s`. Surrogate pairs are not distinguished from single UTF-16 units.
- Sorting.SortDescFacts: `Array.prototype.sort` works in place. The model is a stable insertion sort on sequences, so in-place mutation is left out.
- Relevance.ScoreFile: the keyword is used as a regular expression. Keywords consist of word characters only, so it is modelled as a literal case-insensitive search.
- TerminalShell.PrototypeNameAccepted: what an inherited name then prints is not modelled, only that the test lets it through. "constructor" shows the arguments array that `Object(args)` returns, and "__proto__" shows "Error executing command: TypeError: ...", since `Object.prototype` is not callable. The other inherited names have capitals and cannot survive `toLowerCase`.
- TerminalShell.Executed and TerminalShell.Terminal.ExecuteCommand use the corrected own-key test of the Terminal.tsx:79 finding. For "constructor" or "__proto__" they report "Command not found", where the code runs the inherited property as described above.
- Sessions.SelectedFiles, Sessions.TaskRun, Sessions.Assistant.GatherPrompt and Sessions.Assistant.ExecuteTask select the prompt's files with the intended extension filter of the app.js:439 finding. With the filter as written no file is selected in a project without braces in its names (Relevance.AsWrittenSelectsNothing), so every prompt of the code goes out without excerpts.
- Relevance.FindRelevantFiles and Relevance.CollectFiles take the file-name filter as a parameter. They are proved for any filter, and the code's own filter is MatchesExtensionAsWritten.
- FileIndex.Walk: every directory can be listed and every entry can be stat-ed. In the code a `readdir` or `stat` that throws (app.js 505 and 509), for example on a permission error or on a file removed during the walk, ends the walk of the whole base directory. The files already collected are kept, and the error is caught at app.js 443-445. The model always reports the whole tree.
- ConsoleBox.Width, ConsoleBox.MaxLength and ConsoleBox.Fit measure lines in Unicode code points. JavaScript's `length`, `padEnd` and `substring` count UTF-16 code units, so a line with characters outside the Basic Multilingual Plane, such as emoji, is measured shorter than the code measures it. The code's `substring` can also split a surrogate pair, which the model cannot express.
- React rendering, scrolling, focus, and the state batching of the component are left out. The setters are applied in the order the handlers queue them.
- The `date` command's text is a parameter.
- A custom command returning a non-string value is left out.

## Findings

| source | as written | input that shows it | evidently intended | confidence | as-written member | corrected member |
|---|---|---|---|---|---|---|
| project-assistant-pro/app.js:439 | `file.match(".{js,jsx,ts,tsx}")`: without the u flag the braces are literal, so the expression matches only paths containing the text `{js,jsx,ts,tsx}` and no ordinary source file is ever selected | the path "/proj/app/page.tsx" | keep files whose names end in .js, .jsx, .ts or .tsx, as the glob `*.{js,jsx,ts,tsx}` says | high, not executed | FileIndex.AsWrittenRejectsPage | FileIndex.CandidatesHaveSourceExtension |
| project-assistant-pro/framework/sh-creator/matrix-css/src/components/effects/Terminal.tsx:79 | `command in allCommands` also holds for names inherited from Object.prototype | the line "constructor" | report it as "Command not found" as for any name that is not a command | high, not executed | TerminalShell.PrototypeNameAccepted | TerminalShell.UnknownCommandReported |
