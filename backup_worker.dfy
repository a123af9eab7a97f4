/** `BackupWorker`: a runnable that dumps one database with `pg_dump` in
    directory format using four parallel jobs, and reports the outcome as
    signals keyed by the database name. */
module BackupWorkers {
  import opened Wrappers
  import opened Strings
  import opened Tools
  import opened Signals

  /** `os.path.join(output_folder, dbname)`: a directory named after the
      database, with no extension. */
  function OutputPath(folder: string, dbname: string): (path: string)
    ensures dbname != [] && '/' !in dbname ==> Basename(path) == dbname
  {
    var path := JoinPath(folder, dbname);
    if dbname == [] || '/' in dbname then path
    else
      BasenameOfJoin(folder, dbname);
      path
  }

  /** The options the worker passes to `pg_dump`, writing to `path`. */
  function DumpOptions(server: Server, dbname: string, path: string): seq<(string, string)> {
    [("-h", server.host), ("-p", IntToString(server.port)), ("-U", server.user),
     ("-F", "d"), ("-j", "4"), ("-d", dbname), ("-f", path)]
  }

  /** The arguments given to `pg_dump`. */
  function DumpArgs(server: Server, dbname: string, outputPath: string): seq<string> {
    Flatten(DumpOptions(server, dbname, outputPath))
  }

  /** The process a run starts: `pg_dump` with DumpArgs and the parent's
      environment plus the password. */
  function DumpInvocation(server: Server, parentEnv: map<string, string>, dbname: string, folder: string)
    : Invocation
  {
    Invocation(PG_DUMP, DumpArgs(server, dbname, OutputPath(folder, dbname)), ChildEnvironment(parentEnv, server.password))
  }

  /** `-f` is given once, after the other six options, so it names `path`. */
  lemma DumpTarget(server: Server, dbname: string, path: string)
    ensures Lookup(DumpOptions(server, dbname, path), "-f") == Some(path)
  {
    var opts := DumpOptions(server, dbname, path);
    assert forall j :: 0 <= j < 6 ==> opts[j].0 != "-f" by {
      assert opts[0].0[1] == 'h' && opts[1].0[1] == 'p' && opts[2].0[1] == 'U';
      assert opts[3].0[1] == 'F' && opts[4].0[1] == 'j' && opts[5].0[1] == 'd';
    }
    LookupFirst(opts, "-f", 6);
  }

  /** Read back as options, the worker's `pg_dump` command line names the
      server's host, port and user, the directory format, four parallel
      jobs, the database and the output directory, with no operand and no
      password; the output directory is named after the database. */
  lemma DumpCommandLine(server: Server, parentEnv: map<string, string>, dbname: string, folder: string)
    ensures var inv := DumpInvocation(server, parentEnv, dbname, folder);
            && inv.program == PG_DUMP && |inv.args| == 14 && Operand(inv.args) == None
            && Options(inv.args) == [("-h", server.host), ("-p", IntToString(server.port)), ("-U", server.user),
                                     ("-F", "d"), ("-j", "4"), ("-d", dbname), ("-f", OutputPath(folder, dbname))]
            && Lookup(Options(inv.args), "-f") == Some(OutputPath(folder, dbname))
            && inv.env == ChildEnvironment(parentEnv, server.password)
  {
    var path := OutputPath(folder, dbname);
    OptionsFlatten(DumpOptions(server, dbname, path), []);
    assert Flatten(DumpOptions(server, dbname, path)) + [] == DumpInvocation(server, parentEnv, dbname, folder).args;
    DumpTarget(server, dbname, path);
  }

  class BackupWorker {
    const server: Server
    const dbname: string
    const outputFolder: string
    /** The `QProcess` of the current run; `None` before the first run. */
    var process: Option<Process>
    var cancelled: bool
    /** Every signal emitted so far, oldest first. */
    var signals: seq<Signal>

    constructor (server: Server, dbname: string, outputFolder: string)
      ensures this.server == server && this.dbname == dbname && this.outputFolder == outputFolder
      ensures process == None && !cancelled && signals == []
    {
      this.server := server;
      this.dbname := dbname;
      this.outputFolder := outputFolder;
      process := None;
      cancelled := false;
      signals := [];
    }

    /** `run`: start `pg_dump`, wait for it, then emit. `cancelDuringWait`
        says whether `cancel` ran (from another thread) while this run was
        blocked in `waitForFinished`, the only point where it can interleave;
        `result` is what the process reported. The process is started even
        if the worker was cancelled beforehand, and the run emits exactly
        one terminal signal, which a listener reads as the job's status. */
    method Run(parentEnv: map<string, string>, cancelDuringWait: bool, result: ProcessResult)
      modifies this
      ensures process == Some(Process(DumpInvocation(server, parentEnv, dbname, outputFolder), cancelDuringWait))
      ensures cancelled == (old(cancelled) || cancelDuringWait)
      ensures signals == old(signals) + Emit(dbname, Classify(cancelled, result))
      ensures TerminalCount(signals) == TerminalCount(old(signals)) + 1
      ensures StatusOf(signals) == Some(Classify(cancelled, result))
    {
      var outputPath := OutputPath(outputFolder, dbname);
      var env := ChildEnvironment(parentEnv, server.password);
      var processEnv := CopyEnvironment(env);
      var args := DumpArgs(server, dbname, outputPath);
      process := Some(Process(Invocation(PG_DUMP, args, processEnv), false));
      if cancelDuringWait {
        Cancel();
      }
      assert process == Some(Process(DumpInvocation(server, parentEnv, dbname, outputFolder), cancelDuringWait));
      ghost var before := signals;
      assert before == old(signals);
      ghost var emitted := Emit(dbname, Classify(cancelled, result));
      TerminalCountAppend(before, emitted);
      StatusOfAppend(before, emitted);
      if cancelled {
        signals := signals + [Cancelled(dbname)];
        assert emitted == [Cancelled(dbname)];
      } else if result.exitCode != 0 {
        signals := signals + [Error(dbname, result.stderr)];
        assert emitted == [Error(dbname, result.stderr)];
      } else {
        signals := signals + [Progress(dbname, 100)];
        signals := signals + [Finished(dbname)];
        assert emitted == [Progress(dbname, 100), Finished(dbname)];
        EmitTwice(before, Progress(dbname, 100), Finished(dbname));
      }
    }

    /** `cancel`: raise the flag and kill the current process if there is
        one. Emits nothing; calling it again changes nothing more. */
    method Cancel()
      modifies this
      ensures cancelled && process == Killed(old(process)) && signals == old(signals)
    {
      cancelled := true;
      if process.Some? {
        process := Some(process.value.(killed := true));
      }
    }
  }

  /** A worker cancelled before it runs still starts `pg_dump` (the flag is
      looked at only once the process has finished), does not kill it, and
      reports the job as cancelled whatever the exit status. */
  method CancelBeforeRun(server: Server, dbname: string, folder: string, parentEnv: map<string, string>,
                         result: ProcessResult)
    returns (w: BackupWorker)
    ensures w.process == Some(Process(DumpInvocation(server, parentEnv, dbname, folder), false))
    ensures w.signals == [Cancelled(dbname)]
  {
    w := new BackupWorker(server, dbname, folder);
    w.Cancel();
    w.Run(parentEnv, false, result);
  }
}
