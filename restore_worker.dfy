/** `RestoreWorker`: a runnable that feeds one backup file to `pg_restore`
    connected to the `postgres` database, and reports the outcome as signals
    keyed by the file path. */
module RestoreWorkers {
  import opened Wrappers
  import opened Strings
  import opened Tools
  import opened Signals

  /** The database `pg_restore` connects to. */
  const ADMIN_DATABASE := "postgres"

  /** The options the worker passes to `pg_restore`: the connection and
      the `postgres` database. */
  function RestoreOptions(server: Server): seq<(string, string)> {
    [("-h", server.host), ("-p", IntToString(server.port)), ("-U", server.user), ("-d", ADMIN_DATABASE)]
  }

  /** The arguments given to `pg_restore`. */
  function RestoreArgs(server: Server, backupPath: string): seq<string> {
    Flatten(RestoreOptions(server)) + [backupPath]
  }

  /** The process a run starts: `pg_restore` with RestoreArgs and the
      parent's environment plus the password. */
  function RestoreInvocation(server: Server, parentEnv: map<string, string>, backupPath: string): Invocation {
    Invocation(PG_RESTORE, RestoreArgs(server, backupPath), ChildEnvironment(parentEnv, server.password))
  }

  /** None of the options is `-C`, so `pg_restore` is not asked to create
      the database. */
  lemma NoCreateOption(server: Server)
    ensures Lookup(RestoreOptions(server), "-C") == None
  {
    var opts := RestoreOptions(server);
    assert forall j :: 0 <= j < 4 ==> opts[j].0 != "-C" by {
      assert opts[0].0[1] == 'h' && opts[1].0[1] == 'p' && opts[2].0[1] == 'U' && opts[3].0[1] == 'd';
    }
    LookupFirst(opts, "-C", 4);
  }

  /** Read back, the worker's `pg_restore` command line names the server's
      host, port and user and the `postgres` database, then the backup file
      as the one operand; it has no `-C` (create database) option and no
      password. */
  lemma RestoreCommandLine(server: Server, parentEnv: map<string, string>, backupPath: string)
    ensures var inv := RestoreInvocation(server, parentEnv, backupPath);
            && inv.program == PG_RESTORE && |inv.args| == 9
            && Options(inv.args) == [("-h", server.host), ("-p", IntToString(server.port)), ("-U", server.user),
                                     ("-d", ADMIN_DATABASE)]
            && Operand(inv.args) == Some(backupPath)
            && Lookup(Options(inv.args), "-C") == None
            && inv.env == ChildEnvironment(parentEnv, server.password)
  {
    OptionsFlatten(RestoreOptions(server), [backupPath]);
    NoCreateOption(server);
  }

  class RestoreWorker {
    const server: Server
    const backupPath: string
    /** The `QProcess` of the current run; `None` before the first run. */
    var process: Option<Process>
    var cancelled: bool
    /** Every signal emitted so far, oldest first. */
    var signals: seq<Signal>

    constructor (server: Server, backupPath: string)
      ensures this.server == server && this.backupPath == backupPath
      ensures process == None && !cancelled && signals == []
    {
      this.server := server;
      this.backupPath := backupPath;
      process := None;
      cancelled := false;
      signals := [];
    }

    /** `run`: start `pg_restore`, wait for it, then emit, with the same
        reading of `cancelDuringWait` and `result` as the backup worker's.
        Exactly one terminal signal is emitted, keyed by the file path. */
    method Run(parentEnv: map<string, string>, cancelDuringWait: bool, result: ProcessResult)
      modifies this
      ensures process == Some(Process(RestoreInvocation(server, parentEnv, backupPath), cancelDuringWait))
      ensures cancelled == (old(cancelled) || cancelDuringWait)
      ensures signals == old(signals) + Emit(backupPath, Classify(cancelled, result))
      ensures TerminalCount(signals) == TerminalCount(old(signals)) + 1
      ensures StatusOf(signals) == Some(Classify(cancelled, result))
    {
      var env := ChildEnvironment(parentEnv, server.password);
      var processEnv := CopyEnvironment(env);
      var args := RestoreArgs(server, backupPath);
      process := Some(Process(Invocation(PG_RESTORE, args, processEnv), false));
      if cancelDuringWait {
        Cancel();
      }
      assert process == Some(Process(RestoreInvocation(server, parentEnv, backupPath), cancelDuringWait));
      ghost var before := signals;
      assert before == old(signals);
      ghost var emitted := Emit(backupPath, Classify(cancelled, result));
      TerminalCountAppend(before, emitted);
      StatusOfAppend(before, emitted);
      if cancelled {
        signals := signals + [Cancelled(backupPath)];
        assert emitted == [Cancelled(backupPath)];
      } else if result.exitCode != 0 {
        signals := signals + [Error(backupPath, result.stderr)];
        assert emitted == [Error(backupPath, result.stderr)];
      } else {
        signals := signals + [Progress(backupPath, 100)];
        signals := signals + [Finished(backupPath)];
        assert emitted == [Progress(backupPath, 100), Finished(backupPath)];
        EmitTwice(before, Progress(backupPath, 100), Finished(backupPath));
      }
    }

    /** `cancel`: raise the flag and kill the current process if there is one. */
    method Cancel()
      modifies this
      ensures cancelled && process == Killed(old(process)) && signals == old(signals)
    {
      cancelled := true;
      if process.Some? {
        process := Some(process.value.(killed := true));
      }
    }
  }
}
