/** What the core hands to, and gets back from, the PostgreSQL command-line
    tools: the server record, an invocation (program, argument vector and
    child environment), the process's result, and how an argument vector
    reads back as options. Starting a process, waiting for it and reading
    its standard error are not modelled: a `ProcessResult` is an input. */
module Tools {
  import opened Wrappers

  /** A configured server, as stored in the credentials file. */
  datatype Server = Server(name: string, host: string, port: int, user: string, password: string)

  /** The three PostgreSQL client programs the core launches. */
  const PG_DUMP := "pg_dump"
  const PG_RESTORE := "pg_restore"
  const CREATEDB := "createdb"

  /** The environment variable through which the password reaches the tools. */
  const PASSWORD_VARIABLE := "PGPASSWORD"

  /** One launch of an external tool: `program` run with `args` and the
      child environment `env`. */
  datatype Invocation = Invocation(program: string, args: seq<string>, env: map<string, string>)

  /** What a finished process reports: its exit status and its standard error. */
  datatype ProcessResult = ProcessResult(exitCode: int, stderr: string)

  /** A started process; `killed` records that `kill()` was called on it. */
  datatype Process = Process(invocation: Invocation, killed: bool)

  /** The command as a single list, program first, as `subprocess.run` takes it. */
  function CommandLine(inv: Invocation): seq<string> {
    [inv.program] + inv.args
  }

  /** `env = os.environ.copy(); env["PGPASSWORD"] = password`: the parent's
      environment with the password entry set, and nothing else changed. */
  function ChildEnvironment(parent: map<string, string>, password: string): (env: map<string, string>)
    ensures env.Keys == parent.Keys + {PASSWORD_VARIABLE}
    ensures env[PASSWORD_VARIABLE] == password
    ensures forall k :: k in parent && k != PASSWORD_VARIABLE ==> env[k] == parent[k]
  {
    parent[PASSWORD_VARIABLE := password]
  }

  /** The loop that inserts every entry of `env` into a fresh process
      environment, one key at a time and in no particular order; a new
      `QProcess` starts from an empty environment. */
  method CopyEnvironment(env: map<string, string>) returns (processEnv: map<string, string>)
    ensures processEnv == env
  {
    processEnv := map[];
    var pending := env.Keys;
    while pending != {}
      invariant pending <= env.Keys
      invariant processEnv.Keys == env.Keys - pending
      invariant forall k :: k in processEnv ==> processEnv[k] == env[k]
      decreases pending
    {
      var k :| k in pending;
      processEnv := processEnv[k := env[k]];
      pending := pending - {k};
    }
  }

  /** An argument vector made of flag/value pairs, each flag followed by
      its value. */
  function Flatten(pairs: seq<(string, string)>): (args: seq<string>)
    ensures |args| == 2 * |pairs|
  {
    if pairs == [] then [] else [pairs[0].0, pairs[0].1] + Flatten(pairs[1..])
  }

  /** The leading flag/value pairs of an argument vector, read pairwise from
      the left as the tools' option parser does for these vectors. */
  function Options(args: seq<string>): (opts: seq<(string, string)>)
    ensures |opts| == |args| / 2
    decreases |args|
  {
    if |args| < 2 then [] else [(args[0], args[1])] + Options(args[2..])
  }

  /** The trailing operand that is left when the pairs are taken off. */
  function Operand(args: seq<string>): Option<string> {
    if |args| % 2 == 1 then Some(args[|args| - 1]) else None
  }

  /** Reading back a vector of pairs, optionally followed by one operand,
      gives the same pairs and that operand. */
  lemma {:induction false} OptionsFlatten(pairs: seq<(string, string)>, rest: seq<string>)
    requires |rest| < 2
    ensures Options(Flatten(pairs) + rest) == pairs
    ensures Operand(Flatten(pairs) + rest) == if rest == [] then None else Some(rest[0])
    decreases |pairs|
  {
    if pairs != [] {
      var args := Flatten(pairs) + rest;
      assert args[2..] == Flatten(pairs[1..]) + rest;
      OptionsFlatten(pairs[1..], rest);
    }
  }

  /** The value given to `flag`, if any (the first one). */
  function Lookup(opts: seq<(string, string)>, flag: string): Option<string> {
    if opts == [] then None
    else if opts[0].0 == flag then Some(opts[0].1)
    else Lookup(opts[1..], flag)
  }

  /** Lookup finds the value of the first pair naming the flag, and nothing
      when no pair names it. */
  lemma {:induction false} LookupFirst(opts: seq<(string, string)>, flag: string, i: int)
    requires 0 <= i <= |opts|
    requires forall j :: 0 <= j < i ==> opts[j].0 != flag
    requires i < |opts| ==> opts[i].0 == flag
    ensures Lookup(opts, flag) == if i < |opts| then Some(opts[i].1) else None
    decreases i
  {
    if i > 0 {
      LookupFirst(opts[1..], flag, i - 1);
    }
  }

  /** `process.kill()` on the current process, if there is one. */
  function Killed(process: Option<Process>): (p: Option<Process>)
    ensures p.None? <==> process.None?
    ensures p.Some? ==> p.value.killed && p.value.invocation == process.value.invocation
  {
    match process
    case None => None
    case Some(proc) => Some(proc.(killed := true))
  }

  /** Killing twice leaves the same state as killing once. */
  lemma KillIdempotent(process: Option<Process>)
    ensures Killed(Killed(process)) == Killed(process)
  {
  }
}
