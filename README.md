# pg-bulk-manager in Dafny

Postgres Bulk Manager is a desktop tool that backs up and restores many
PostgreSQL databases at once by driving the PostgreSQL client programs
`pg_dump`, `createdb` and `pg_restore`. This project models its core and
proves properties of the model:

- **BackupManager** (`backup_database`): one `pg_dump` in custom format
  writing `<folder>/<dbname>.backup`, returning that path or raising with
  the tool's standard error.
- **RestoreManager** (`restore_backup`): a database name derived from
  the file name (basename, then every `.backup` removed), `createdb` for
  it with its outcome ignored, then `pg_restore` into it.
- **BackupWorkers / RestoreWorkers**: the runnable workers. Each holds a
  `process` slot, a cancellation flag and a signal log. `run` starts the
  tool, waits for it and emits signals; `cancel` raises the flag and kills
  the process.
- **Signals**: the four worker signals and the rule shared by both
  workers. The flag comes first, then the exit status.
- **Ui** (`MainWindow`): select-all, connecting to a configured server,
  loading the database list, and the two batch actions. A batch runs every
  item, collects `"item: message"` lines and ends in one summary box.
- **Strings / Tools**: the Python primitives the core relies on
  (`str(int)`, `os.path.join`, `os.path.basename`, `str.replace`,
  `"\n".join`), and the shape of an external-tool invocation.

External processes are inputs. A manager takes the `ProcessResult`
(exit status and standard error) of each process it runs. A batch takes
`world`, a function from invocation to result. A worker's `run` takes the
result and whether `cancel` ran while it waited. The parent environment
(`os.environ`) is a parameter. Argument vectors are built as flag/value
pairs (`Flatten`) and read back with `Options`, `Operand` and `Lookup`,
so every vector is proved element by element.

The workers are bare runnables that nothing in the window starts; there
is no pool and no cancel-all, and the window runs the managers one after
the other. The restore worker passes no `-C`
(`RestoreWorkers.NoCreateOption`), so `pg_restore` connects to `postgres`
and restores into it.

## Model

| member | source | states |
|---|---|---|
| Strings.NatToDecimal | core/backup_manager.py:17 | `str(n)` of a natural: at least one digit, all decimal digits, no leading zero, denoting `n` |
| Strings.IntToString | core/backup_manager.py:17 | `str(i)`: a leading `-` exactly for negatives, then the digits of the magnitude |
| Strings.IntToStringInjective | core/backup_manager.py:17 | two ports with the same text are the same port |
| Strings.JoinPath | core/backup_manager.py:9 | `os.path.join`: an absolute second part replaces the first; otherwise the result ends with the second part after the first part, with one `/` inserted exactly when the first part is non-empty and does not end in `/` |
| Strings.Basename | core/restore_manager.py:10 | `os.path.basename`: a suffix of the path with no `/`, preceded by `/` unless it is the whole path |
| Strings.BasenameUnique | core/restore_manager.py:10 | those three properties determine the basename |
| Strings.BasenameOfJoin | core/backup_manager.py:9 | a `/`-free non-empty name joined onto any folder is that path's basename |
| Strings.RemoveAll | core/restore_manager.py:10 | `str.replace(p, "")` never lengthens a string |
| Strings.RemoveAllChars | core/restore_manager.py:10 | removal never introduces a character |
| Strings.RemoveAllAbsent | core/restore_manager.py:10 | where `p` does not occur, nothing is removed |
| Strings.RemoveAllTrailing | core/restore_manager.py:10 | `name + p` loses exactly the trailing `p` when `name` has no `p` and `p`'s first character does not recur in it |
| Strings.RemoveAllEmbedded | core/restore_manager.py:10 | an occurrence of `p` inside the string is removed as well as a trailing one |
| Strings.RemoveAllSinglePass | core/restore_manager.py:10 | removal is one pass: an occurrence formed by joining the halves around a removed one stays |
| Strings.JoinLines | ui/main_window.py:173 | `"\n".join`: no lines give the empty text, one line gives itself |
| Tools.ChildEnvironment | core/backup_manager.py:11-12 | the child environment has the parent's keys plus `PGPASSWORD`, maps it to the password, and keeps every other entry |
| Tools.CopyEnvironment | core/workers/backup_worker.py:31-34 | the key-by-key insertion loop into an empty process environment yields exactly the given environment |
| Tools.OptionsFlatten | core/backup_manager.py:14-22 | an argument vector of flag/value pairs, optionally followed by one operand, reads back as exactly those pairs and that operand |
| Tools.LookupFirst | core/backup_manager.py:14-22 | the value read for a flag is that of its first pair, or none when no pair names it |
| Tools.Killed | core/workers/backup_worker.py:62-63 | killing marks an existing process killed with its invocation unchanged, and leaves no process as none |
| Tools.KillIdempotent | core/workers/backup_worker.py:60-63 | killing a second time changes nothing |
| BackupManager.OutputFileName | core/backup_manager.py:9 | the backup file is `<dbname>.backup` inside the folder |
| BackupManager.DumpCommandLine | core/backup_manager.py:14-22 | the command is `pg_dump` with `-h host -p str(port) -U user -F c -d dbname -f output_file`, 13 elements, no operand, environment = parent + password |
| BackupManager.DumpTarget | core/backup_manager.py:19-21 | `-f` names the output file |
| BackupManager.BackupDatabase | core/backup_manager.py:24-29 | succeeds exactly on exit 0; otherwise raises with exactly the captured standard error |
| BackupManager.BackupReturnsDumpTarget | core/backup_manager.py:21-29 | on success the returned path is the one passed after `-f` |
| BackupManager.PasswordOnlyInEnvironment | core/backup_manager.py:11-22 | the command line does not depend on the password, which reaches the tool only as `PGPASSWORD` |
| RestoreManager.RestoreDbName | core/restore_manager.py:10 | the derived name is no longer than the basename and has no `/` |
| RestoreManager.NameWithoutExtensionUnchanged | core/restore_manager.py:10 | a basename without `.backup` is the name unchanged |
| RestoreManager.BackupRestoreRoundTrip | core/backup_manager.py:9 | restoring the file a backup wrote recreates the database's own name when it has no `/` and no `.backup` |
| RestoreManager.RoundTripFailsInsideName | core/restore_manager.py:10 | every `.backup` is removed, not only the suffix: a database `a.backupx` comes back as `ax` |
| RestoreManager.SinglePass | core/restore_manager.py:10 | the file `x..backupbackup` gives the name `x.backup`: removal is one pass and does not re-scan what it joined |
| RestoreManager.CreateCommandLine | core/restore_manager.py:16-22 | `createdb -h host -p str(port) -U user dbname`, 8 elements, the name as the one operand |
| RestoreManager.RestoreCommandLine | core/restore_manager.py:27-34 | `pg_restore -h host -p str(port) -U user -d dbname backup_file`, 10 elements, the file as the one operand |
| RestoreManager.RestoreTarget | core/restore_manager.py:31 | `-d` names the database |
| RestoreManager.CommandsAgree | core/restore_manager.py:16-34 | `pg_restore` targets the database `createdb` was asked to create, and restores the given file |
| RestoreManager.RestoreCommandsAgree | core/restore_manager.py:10-36 | `createdb` runs first and `pg_restore` second, both for the name derived from the file |
| RestoreManager.RestoreBackup | core/restore_manager.py:36-41 | succeeds exactly when `pg_restore` exits 0, returning the derived name; otherwise raises with its standard error |
| RestoreManager.CreatedbStatusIgnored | core/restore_manager.py:24 | whatever `createdb` reports, the outcome is the same |
| Signals.Emit | core/workers/backup_worker.py:49-58 | a run's signals: only `cancelled` or only `error` (one signal), or `progress(key, 100)` then `finished` on success; exactly one terminal signal, last, every signal keyed by the job, read back as the job's status |
| Signals.CancellationPrecedence | core/workers/backup_worker.py:49-51 | a cancelled job is reported cancelled whatever the process reported |
| Signals.ClassifyOutcomes | core/workers/backup_worker.py:49-58 | success exactly when not cancelled and exit 0; failure exactly when not cancelled and exit nonzero, carrying the standard error |
| Signals.TerminalCountAppend | core/workers/backup_worker.py:49-58 | terminal signals of joined logs add up |
| Signals.StatusOfAppend | core/workers/backup_worker.py:49-58 | a run ending in a terminal signal sets the status of the whole log |
| BackupWorkers.OutputPath | core/workers/backup_worker.py:24 | the output directory is named after the database, with no extension |
| BackupWorkers.DumpTarget | core/workers/backup_worker.py:36-44 | `-f` names the output directory |
| BackupWorkers.DumpCommandLine | core/workers/backup_worker.py:36-46 | `pg_dump` with `-h host -p str(port) -U user -F d -j 4 -d dbname -f output_path`, 14 arguments, no operand, environment = parent + password |
| BackupWorkers.BackupWorker.constructor | core/workers/backup_worker.py:14-21 | a new worker has no process, is not cancelled and has emitted nothing |
| BackupWorkers.BackupWorker.Run | core/workers/backup_worker.py:23-58 | starts the dump unkilled unless cancelled during the wait; appends exactly the signals of `Classify(flag, result)`: `cancelled`, else `error(stderr)`, else `progress(100)` then `finished`; one more terminal signal, which a listener reads as that status |
| BackupWorkers.BackupWorker.Cancel | core/workers/backup_worker.py:60-63 | sets the flag, kills the process if there is one, emits nothing |
| BackupWorkers.CancelBeforeRun | core/workers/backup_worker.py:46-51 | a worker cancelled before it runs still starts `pg_dump`, unkilled, and emits only `cancelled` |
| RestoreWorkers.NoCreateOption | core/workers/restore_worker.py:33-39 | the vector has no `-C` |
| RestoreWorkers.RestoreCommandLine | core/workers/restore_worker.py:33-41 | `pg_restore` with `-h host -p str(port) -U user -d postgres backup_path`, 9 arguments, the file as the one operand, environment = parent + password |
| RestoreWorkers.RestoreWorker.constructor | core/workers/restore_worker.py:14-20 | a new worker has no process, is not cancelled and has emitted nothing |
| RestoreWorkers.RestoreWorker.Run | core/workers/restore_worker.py:22-53 | as the backup worker's run, keyed by the file path |
| RestoreWorkers.RestoreWorker.Cancel | core/workers/restore_worker.py:55-58 | sets the flag, kills the process if there is one, emits nothing |
| Ui.SelectedAppend | ui/main_window.py:150-154 | the selection is taken item by item, in list order |
| Ui.UniformSelection | ui/main_window.py:150-154 | all rows Checked selects every name; all rows in another state select none |
| Ui.FreshList | ui/main_window.py:133-138 | a reloaded list has the fetched names in order, all unchecked, nothing selected |
| Ui.FirstWithName | ui/main_window.py:107-109 | the first server with the chosen name, or none where Python raises `StopIteration` |
| Ui.ErrorLinesAppend | ui/main_window.py:164-170 | the error lines of a batch are those of its first part, then those of its second |
| Ui.ErrorLinesEmpty | ui/main_window.py:164-170 | no error lines exactly when no item failed; never more lines than items |
| Ui.Summary | ui/main_window.py:172-175 | the one box is a warning exactly when there are errors, a success message otherwise |
| Ui.Launches | ui/main_window.py:166-168 | one group of processes per item, in item order |
| Ui.BatchStep | ui/main_window.py:166-170 | one more item adds its processes and, if it failed, its `"item: message"` line |
| Ui.BatchOutcome | ui/main_window.py:164-175 | no errors exactly when the last process of every item exited 0 |
| Ui.BackupOutcome | ui/main_window.py:164-175 | a backup batch launches one `pg_dump` per database and has no errors exactly when each exited 0 |
| Ui.RestoreItem | ui/main_window.py:194-198 | a file fails exactly when its `pg_restore` exits nonzero |
| Ui.RestoreOutcome | ui/main_window.py:192-203 | a restore batch launches `createdb` then `pg_restore` per file and has no errors exactly when every `pg_restore` exited 0 |
| Ui.MainWindow.constructor | ui/main_window.py:14-21 | the servers are loaded; no server is current, the list is empty |
| Ui.MainWindow.ToggleSelectAll | ui/main_window.py:85-88 | the box shows `state`; every row becomes Checked when the state is Checked and Unchecked otherwise; names and order stay; the selection is all or nothing |
| Ui.MainWindow.LoadDatabases | ui/main_window.py:126-140 | a failed query shows `Connection Error` with the message and leaves the list; a successful one replaces the list with a fresh one and clears select-all |
| Ui.MainWindow.ConnectServer | ui/main_window.py:93-111 | no servers: a warning and no change; a dismissed or empty answer: no change; otherwise the first server with that name becomes current and its databases are loaded |
| Ui.MainWindow.RefreshDatabases | ui/main_window.py:116-121 | with no current server a warning and no change; otherwise the list is reloaded |
| Ui.MainWindow.BackupSelected | ui/main_window.py:145-175 | no server, no selection or no folder: nothing launched; otherwise one `pg_dump` per selected database in order, the errors of all of them, and a success box exactly when every dump exited 0 |
| Ui.MainWindow.RestoreBackups | ui/main_window.py:180-203 | no server or no files: nothing launched; otherwise `createdb` and `pg_restore` per file in order, the errors of all of them, and a success box exactly when every `pg_restore` exited 0 |

## Left out

- `core/server_manager.py` is not part of this model. Loading and saving the server list is JSON file I/O. The database query is a psycopg2 connection, so it is the `catalog` parameter of `LoadDatabases`.
- Strings.JoinPath and Strings.Basename follow POSIX paths (`posixpath`): `/` is the only separator and there are no drive letters, so Windows (`ntpath`) paths are not modelled.
- Ui.MainWindow.ToggleSelectAll: the slot receives the integer that `stateChanged` passes and compares it with `Qt.Checked`; the model reads that integer as the matching `CheckState`, assuming the binding's enum compares equal to it.
- Running processes (`subprocess.run`, `QProcess.start`, `waitForFinished`, reading standard error, decoding it) is outside Dafny. Each result is an input.
- RestoreManager.CreatedbStatusIgnored: a `ProcessResult` cannot express a launch failure; when a tool is missing, `subprocess.run` raises (`FileNotFoundError`), which in `restore_backup` skips `pg_restore` and reports the OS error text, so the lemma covers only `createdb`'s exit status.
- `os.environ` is the parameter `parentEnv`.
- Qt widgets, layout, signal wiring and dialogs are not modelled. Dialog answers are inputs; message boxes are the returned `Notice`.
- Thread-pool scheduling is not modelled. A concurrent `cancel` may land before the process starts (killing a process not yet started), while `run` waits, or between the wait and the flag check; in every case the run reports what `old(cancelled) || cancelDuringWait` gives, so the boolean `cancelDuringWait` stands for all of them, and the model records the kill as landing after the start.
- Ui.MainWindow.LoadDatabases: `setChecked(False)` on the select-all box re-fires `toggle_select_all` with Unchecked when the box was checked. That only unchecks rows that are already unchecked, so the model keeps just the flag.
- Ui.MainWindow.LoadDatabases: the exception text `str(e)` is whatever message the catalog input carries.
- RestoreManager.RestoreBackup: the `createdb` run's output is not captured and its status is never read, so it appears only as an ignored input.
- Ui.MainWindow.BackupSelected: the batch's processes are returned grouped per item rather than as one flat list.
- Ui.MainWindow.RestoreBackups: the batch's processes are returned grouped per item rather than as one flat list.
- Strings.JoinLines: states only the empty and one-line cases; joining several lines is stated by its definition.
