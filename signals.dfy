/** The signals a worker emits (`progress`, `finished`, `error`,
    `cancelled`, each carrying the job's key: the database name for a
    backup, the file path for a restore) and the rule that turns a finished
    process into them. Emission is modelled as appending to a log. */
module Signals {
  import opened Wrappers
  import opened Tools

  datatype Signal =
    | Progress(key: string, percent: int)
    | Finished(key: string)
    | Error(key: string, message: string)
    | Cancelled(key: string)

  /** Finished, Error and Cancelled end a job; Progress does not. */
  predicate IsTerminal(s: Signal) {
    !s.Progress?
  }

  /** How a job ended. */
  datatype JobStatus = Succeeded | Failed(message: string) | WasCancelled

  /** The rule shared by both workers' `run`: the cancellation flag is
      consulted first, so a cancelled job is never reported as failed; then
      a nonzero exit fails with the captured standard error. */
  function Classify(cancelled: bool, result: ProcessResult): JobStatus {
    if cancelled then WasCancelled
    else if result.exitCode != 0 then Failed(result.stderr)
    else Succeeded
  }

  /** The number of terminal signals in a log. */
  function TerminalCount(log: seq<Signal>): nat {
    if log == [] then 0
    else TerminalCount(log[..|log| - 1]) + (if IsTerminal(log[|log| - 1]) then 1 else 0)
  }

  /** The status the last terminal signal of a log reports, as a listener
      reading the log would conclude. */
  function StatusOf(log: seq<Signal>): Option<JobStatus> {
    if log == [] then None
    else match log[|log| - 1]
      case Progress(_, _) => StatusOf(log[..|log| - 1])
      case Finished(_) => Some(Succeeded)
      case Error(_, m) => Some(Failed(m))
      case Cancelled(_) => Some(WasCancelled)
  }

  /** What one run emits for a job ending in `status`: exactly one terminal
      signal, last, preceded only by progress signals; every signal carries
      the job's key, and a listener reads back `status` from them. */
  function Emit(key: string, status: JobStatus): (log: seq<Signal>)
    ensures |log| == (if status == Succeeded then 2 else 1)
    ensures TerminalCount(log) == 1 && IsTerminal(log[|log| - 1])
    ensures forall i :: 0 <= i < |log| - 1 ==> log[i] == Progress(key, 100)
    ensures forall i :: 0 <= i < |log| ==> log[i].key == key
    ensures StatusOf(log) == Some(status)
  {
    match status
    case WasCancelled => [Cancelled(key)]
    case Failed(m) => [Error(key, m)]
    case Succeeded =>
      var log := [Progress(key, 100), Finished(key)];
      assert log[..1] == [Progress(key, 100)] && log[..1][..0] == [];
      assert TerminalCount(log[..1]) == 0;
      log
  }

  /** Emitting two signals one after the other appends both, in order. */
  lemma EmitTwice(log: seq<Signal>, first: Signal, second: Signal)
    ensures log + [first] + [second] == log + [first, second]
  {
  }

  /** Cancellation takes precedence over whatever the process reported. */
  lemma CancellationPrecedence(r1: ProcessResult, r2: ProcessResult)
    ensures Classify(true, r1) == Classify(true, r2) == WasCancelled
  {
  }

  /** Only a clean exit of an uncancelled job is a success, and a failure
      carries exactly the standard error. */
  lemma ClassifyOutcomes(cancelled: bool, result: ProcessResult)
    ensures Classify(cancelled, result) == Succeeded <==> !cancelled && result.exitCode == 0
    ensures Classify(cancelled, result).Failed? <==> !cancelled && result.exitCode != 0
    ensures Classify(cancelled, result).Failed? ==> Classify(cancelled, result).message == result.stderr
  {
  }

  /** Terminal signals of two logs add up when the logs are joined. */
  lemma {:induction false} TerminalCountAppend(a: seq<Signal>, b: seq<Signal>)
    ensures TerminalCount(a + b) == TerminalCount(a) + TerminalCount(b)
    decreases |b|
  {
    if b == [] {
      assert a + b == a;
    } else {
      assert (a + b)[..|a + b| - 1] == a + b[..|b| - 1];
      TerminalCountAppend(a, b[..|b| - 1]);
    }
  }

  /** Appending a run that ends in a terminal signal makes that run's status
      the status of the whole log. */
  lemma {:induction false} StatusOfAppend(a: seq<Signal>, b: seq<Signal>)
    requires StatusOf(b).Some?
    ensures StatusOf(a + b) == StatusOf(b)
    decreases |b|
  {
    assert b != [];
    assert (a + b)[|a + b| - 1] == b[|b| - 1];
    if b[|b| - 1].Progress? {
      assert (a + b)[..|a + b| - 1] == a + b[..|b| - 1];
      StatusOfAppend(a, b[..|b| - 1]);
    }
  }
}
