/** `RestoreManager.restore_backup`: derive a database name from the backup
    file's name, run `createdb` for it (ignoring how that ends), then run
    `pg_restore` into it. */
module RestoreManager {
  import opened Wrappers
  import opened Strings
  import opened Tools
  import BackupManager

  /** `os.path.basename(backup_file).replace(".backup", "")`: every
      non-overlapping `.backup` is removed in one pass, wherever it stands. */
  function RestoreDbName(backupFile: string): (dbname: string)
    ensures |dbname| <= |Basename(backupFile)|
    ensures '/' !in dbname
  {
    RemoveAllChars(Basename(backupFile), BackupManager.BACKUP_EXTENSION);
    RemoveAll(Basename(backupFile), BackupManager.BACKUP_EXTENSION)
  }

  /** The `createdb` launch for the new database. */
  function CreateInvocation(server: Server, parentEnv: map<string, string>, dbname: string): Invocation {
    Invocation(CREATEDB,
               Flatten([("-h", server.host), ("-p", IntToString(server.port)), ("-U", server.user)]) + [dbname],
               ChildEnvironment(parentEnv, server.password))
  }

  /** Read back, the `createdb` command line names the server's host, port
      and user, then the new database's name as the one operand. */
  lemma CreateCommandLine(server: Server, parentEnv: map<string, string>, dbname: string)
    ensures var inv := CreateInvocation(server, parentEnv, dbname);
            && inv.program == CREATEDB && |CommandLine(inv)| == 8
            && Options(inv.args) == [("-h", server.host), ("-p", IntToString(server.port)), ("-U", server.user)]
            && Operand(inv.args) == Some(dbname)
            && inv.env == ChildEnvironment(parentEnv, server.password)
  {
    OptionsFlatten([("-h", server.host), ("-p", IntToString(server.port)), ("-U", server.user)], [dbname]);
  }

  /** The options `restore_backup` passes to `pg_restore`. */
  function RestoreOptions(server: Server, dbname: string): seq<(string, string)> {
    [("-h", server.host), ("-p", IntToString(server.port)), ("-U", server.user), ("-d", dbname)]
  }

  /** The `pg_restore` launch into `dbname`. */
  function RestoreInvocation(server: Server, parentEnv: map<string, string>, dbname: string, backupFile: string)
    : Invocation
  {
    Invocation(PG_RESTORE, Flatten(RestoreOptions(server, dbname)) + [backupFile],
               ChildEnvironment(parentEnv, server.password))
  }

  /** Read back, the `pg_restore` command line names the server's host,
      port and user and the target database, then the backup file as the
      one operand. */
  lemma RestoreCommandLine(server: Server, parentEnv: map<string, string>, dbname: string, backupFile: string)
    ensures var inv := RestoreInvocation(server, parentEnv, dbname, backupFile);
            && inv.program == PG_RESTORE && |CommandLine(inv)| == 10
            && Options(inv.args) == [("-h", server.host), ("-p", IntToString(server.port)), ("-U", server.user),
                                     ("-d", dbname)]
            && Operand(inv.args) == Some(backupFile)
            && inv.env == ChildEnvironment(parentEnv, server.password)
  {
    OptionsFlatten(RestoreOptions(server, dbname), [backupFile]);
  }

  /** `-d` is given once, after the three connection options. */
  lemma RestoreTarget(server: Server, dbname: string)
    ensures Lookup(RestoreOptions(server, dbname), "-d") == Some(dbname)
  {
    var opts := RestoreOptions(server, dbname);
    assert forall j :: 0 <= j < 3 ==> opts[j].0 != "-d" by {
      assert opts[0].0[1] == 'h' && opts[1].0[1] == 'p' && opts[2].0[1] == 'U';
    }
    LookupFirst(opts, "-d", 3);
  }

  /** The processes `restore_backup` launches, in order. */
  function RestoreCommands(server: Server, parentEnv: map<string, string>, backupFile: string): seq<Invocation> {
    var dbname := RestoreDbName(backupFile);
    [CreateInvocation(server, parentEnv, dbname), RestoreInvocation(server, parentEnv, dbname, backupFile)]
  }

  /** `pg_restore` restores `backupFile` into the database `createdb` was
      asked to create. */
  lemma CommandsAgree(server: Server, parentEnv: map<string, string>, dbname: string, backupFile: string)
    ensures Operand(CreateInvocation(server, parentEnv, dbname).args) == Some(dbname)
    ensures Lookup(Options(RestoreInvocation(server, parentEnv, dbname, backupFile).args), "-d") == Some(dbname)
    ensures Operand(RestoreInvocation(server, parentEnv, dbname, backupFile).args) == Some(backupFile)
  {
    OptionsFlatten([("-h", server.host), ("-p", IntToString(server.port)), ("-U", server.user)], [dbname]);
    OptionsFlatten(RestoreOptions(server, dbname), [backupFile]);
    RestoreTarget(server, dbname);
  }

  /** `createdb` runs first, then `pg_restore` restores the given file into
      the very database `createdb` was asked to create, the one named after
      the file. */
  lemma RestoreCommandsAgree(server: Server, parentEnv: map<string, string>, backupFile: string)
    ensures var invs := RestoreCommands(server, parentEnv, backupFile);
            && |invs| == 2
            && invs[0].program == CREATEDB && invs[1].program == PG_RESTORE
            && Operand(invs[0].args) == Some(RestoreDbName(backupFile))
            && Lookup(Options(invs[1].args), "-d") == Operand(invs[0].args)
            && Operand(invs[1].args) == Some(backupFile)
  {
    CommandsAgree(server, parentEnv, RestoreDbName(backupFile), backupFile);
  }

  /** `restore_backup` given the results of its two processes: the
      `createdb` result is never looked at; a failing `pg_restore` raises
      with its standard error, a successful one returns the derived name. */
  function RestoreBackup(server: Server, parentEnv: map<string, string>, backupFile: string,
                         createResult: ProcessResult, restoreResult: ProcessResult): (r: Result<string>)
    ensures r.Ok? <==> restoreResult.exitCode == 0
    ensures r.Ok? ==> r.value == RestoreDbName(backupFile)
    ensures r.Err? ==> r.error == restoreResult.stderr
  {
    var dbname := RestoreDbName(backupFile);
    if restoreResult.exitCode != 0 then Err(restoreResult.stderr) else Ok(dbname)
  }

  /** Whatever `createdb` reports, the outcome is the same. */
  lemma CreatedbStatusIgnored(server: Server, parentEnv: map<string, string>, backupFile: string,
                              c1: ProcessResult, c2: ProcessResult, restoreResult: ProcessResult)
    ensures RestoreBackup(server, parentEnv, backupFile, c1, restoreResult)
         == RestoreBackup(server, parentEnv, backupFile, c2, restoreResult)
  {
  }

  /** A file name with no `.backup` in it is used unchanged as the name. */
  lemma NameWithoutExtensionUnchanged(backupFile: string)
    requires !Occurs(BackupManager.BACKUP_EXTENSION, Basename(backupFile))
    ensures RestoreDbName(backupFile) == Basename(backupFile)
  {
    RemoveAllAbsent(Basename(backupFile), BackupManager.BACKUP_EXTENSION);
  }

  /** Backing up a database and restoring the file it wrote recreates the
      database under its own name, provided the name has no `/` and no
      `.backup` in it. */
  lemma BackupRestoreRoundTrip(folder: string, dbname: string)
    requires '/' !in dbname && !Occurs(BackupManager.BACKUP_EXTENSION, dbname)
    ensures RestoreDbName(BackupManager.OutputFile(folder, dbname)) == dbname
  {
    var ext := BackupManager.BACKUP_EXTENSION;
    assert ext[0] !in ext[1..];
    BackupManager.OutputFileName(folder, dbname);
    RemoveAllTrailing(dbname, ext);
  }

  /** Without that proviso the round trip fails: the backup of a database
      named like `a.backupx` is restored as `ax`. */
  lemma RoundTripFailsInsideName(folder: string, a: char, x: char)
    requires a != '/' && a != '.' && x != '/'
    ensures RestoreDbName(BackupManager.OutputFile(folder, [a] + BackupManager.BACKUP_EXTENSION + [x])) == [a, x]
  {
    var ext := BackupManager.BACKUP_EXTENSION;
    var name := [a] + ext + [x];
    forall i | 0 <= i < |name|
      ensures name[i] != '/'
    {
      if 1 <= i <= |ext| {
        assert name[i] == ext[i - 1];
      }
    }
    BackupManager.OutputFileName(folder, name);
    RemoveAllEmbedded(a, x, ext);
  }

  /** One pass only: removing a `.backup` can bring two halves of another
      together, and the name that results still holds `.backup`. */
  lemma SinglePass(x: char)
    requires x != '/' && x != '.'
    ensures RestoreDbName([x, '.'] + BackupManager.BACKUP_EXTENSION + "backup") == [x] + BackupManager.BACKUP_EXTENSION
  {
    var ext := BackupManager.BACKUP_EXTENSION;
    var rest := ext[1..];
    assert rest == "backup";
    var f := [x, '.'] + ext + rest;
    forall i | 0 <= i < |f|
      ensures f[i] != '/'
    {
      if 2 <= i < 2 + |ext| {
        assert f[i] == ext[i - 2];
      } else if 2 + |ext| <= i {
        assert f[i] == rest[i - 2 - |ext|];
      }
    }
    BasenameUnique(f, f);
    RemoveAllSinglePass(x, ext);
  }
}
