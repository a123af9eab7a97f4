/** `BackupManager.backup_database`: one `pg_dump` run in PostgreSQL's
    custom format, writing `<folder>/<dbname>.backup`. */
module BackupManager {
  import opened Wrappers
  import opened Strings
  import opened Tools

  const BACKUP_EXTENSION := ".backup"

  /** `os.path.join(output_folder, f"{dbname}.backup")`. */
  function OutputFile(folder: string, dbname: string): string {
    JoinPath(folder, dbname + BACKUP_EXTENSION)
  }

  /** The file a backup writes is named after the database, with the
      `.backup` extension, inside the folder. */
  lemma OutputFileName(folder: string, dbname: string)
    requires '/' !in dbname
    ensures Basename(OutputFile(folder, dbname)) == dbname + BACKUP_EXTENSION
  {
    var file := dbname + BACKUP_EXTENSION;
    forall i | 0 <= i < |file|
      ensures file[i] != '/'
    {
      if i < |dbname| {
        assert file[i] == dbname[i];
      } else {
        assert file[i] == BACKUP_EXTENSION[i - |dbname|];
      }
    }
    BasenameOfJoin(folder, file);
  }

  /** The options `backup_database` passes to `pg_dump`, writing `file`. */
  function DumpOptions(server: Server, dbname: string, file: string): seq<(string, string)> {
    [("-h", server.host), ("-p", IntToString(server.port)), ("-U", server.user),
     ("-F", "c"), ("-d", dbname), ("-f", file)]
  }

  /** The `pg_dump` launch with the parent's environment plus the password. */
  function DumpInvocation(server: Server, parentEnv: map<string, string>, dbname: string, folder: string)
    : Invocation
  {
    Invocation(PG_DUMP, Flatten(DumpOptions(server, dbname, OutputFile(folder, dbname))),
               ChildEnvironment(parentEnv, server.password))
  }

  /** Read back as options, the `pg_dump` command line names the server's
      host, port and user, the custom format, the database and the output
      file, in that order; it has no operand, and the password travels only
      in the environment. */
  lemma DumpCommandLine(server: Server, parentEnv: map<string, string>, dbname: string, folder: string)
    ensures var inv := DumpInvocation(server, parentEnv, dbname, folder);
            && inv.program == PG_DUMP && |CommandLine(inv)| == 13
            && Options(inv.args) == [("-h", server.host), ("-p", IntToString(server.port)), ("-U", server.user),
                                     ("-F", "c"), ("-d", dbname), ("-f", OutputFile(folder, dbname))]
            && Operand(inv.args) == None
            && inv.env == ChildEnvironment(parentEnv, server.password)
  {
    OptionsFlatten(DumpOptions(server, dbname, OutputFile(folder, dbname)), []);
    assert Flatten(DumpOptions(server, dbname, OutputFile(folder, dbname))) + []
        == DumpInvocation(server, parentEnv, dbname, folder).args;
  }

  /** `-f` is given once, after the other five options, so it names `file`. */
  lemma DumpTarget(server: Server, dbname: string, file: string)
    ensures Lookup(DumpOptions(server, dbname, file), "-f") == Some(file)
  {
    var opts := DumpOptions(server, dbname, file);
    assert forall j :: 0 <= j < 5 ==> opts[j].0 != "-f" by {
      assert opts[0].0[1] == 'h' && opts[1].0[1] == 'p' && opts[2].0[1] == 'U';
      assert opts[3].0[1] == 'F' && opts[4].0[1] == 'd';
    }
    LookupFirst(opts, "-f", 5);
  }

  /** `backup_database` given the result of its `pg_dump` process: a zero
      exit returns the output file; any other exit raises with the captured
      standard error as the message. */
  function BackupDatabase(server: Server, parentEnv: map<string, string>, dbname: string, folder: string,
                          result: ProcessResult): (r: Result<string>)
    ensures r.Ok? <==> result.exitCode == 0
    ensures r.Err? ==> r.error == result.stderr
  {
    if result.exitCode != 0 then Err(result.stderr) else Ok(OutputFile(folder, dbname))
  }

  /** The path a successful backup returns is the one `pg_dump` was told to
      write with `-f`. */
  lemma BackupReturnsDumpTarget(server: Server, parentEnv: map<string, string>, dbname: string, folder: string,
                                result: ProcessResult)
    requires result.exitCode == 0
    ensures Some(BackupDatabase(server, parentEnv, dbname, folder, result).value)
         == Lookup(Options(DumpInvocation(server, parentEnv, dbname, folder).args), "-f")
  {
    var file := OutputFile(folder, dbname);
    OptionsFlatten(DumpOptions(server, dbname, file), []);
    assert Flatten(DumpOptions(server, dbname, file)) + [] == DumpInvocation(server, parentEnv, dbname, folder).args;
    DumpTarget(server, dbname, file);
  }

  /** The password never shapes the command line: two servers that differ
      only in their password produce the same program and arguments. */
  lemma PasswordOnlyInEnvironment(s1: Server, s2: Server, parentEnv: map<string, string>, dbname: string, folder: string)
    requires s1.(password := s2.password) == s2
    ensures CommandLine(DumpInvocation(s1, parentEnv, dbname, folder)) == CommandLine(DumpInvocation(s2, parentEnv, dbname, folder))
    ensures DumpInvocation(s2, parentEnv, dbname, folder).env[PASSWORD_VARIABLE] == s2.password
  {
  }
}
