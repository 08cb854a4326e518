/**
 * The `git` executable as the program sees it: each invocation is an
 * argument list, spawned and then waited for. A runner records every
 * invocation and reports the outcome scripted for it, standing in for
 * `Command::new("git").args(..).spawn()?.wait()?`.
 */
module Git {
  import opened Wrappers

  /** The arguments of one `git` invocation, the program name left out. */
  type Argv = seq<string>

  /** What becomes of one invocation: it exits with some status, or spawning or waiting fails with an I/O error. */
  datatype RunOutcome = Exited(code: int) | SpawnFailed(cause: string) | WaitFailed(cause: string)

  /** `spawn()?` then `wait()?`: an I/O error of either step is the result; the exit status is passed on unexamined. */
  function Await(o: RunOutcome): Result<int, string> {
    match o
    case Exited(code) => Ok(code)
    case SpawnFailed(cause) => Err(cause)
    case WaitFailed(cause) => Err(cause)
  }

  /** The outcome of the `i`-th invocation; invocations past the script exit with status 0. */
  function Nth(outcomes: seq<RunOutcome>, i: nat): RunOutcome {
    if i < |outcomes| then outcomes[i] else Exited(0)
  }

  class Runner {
    /** Every invocation issued so far, in order. */
    var runs: seq<Argv>
    /** The outcome each invocation will have, by its position in `runs`. */
    const outcomes: seq<RunOutcome>

    constructor (outcomes: seq<RunOutcome>)
      ensures this.outcomes == outcomes && runs == []
    {
      this.outcomes := outcomes;
      runs := [];
    }

    /** Spawns `git` with `argv` and waits for it. */
    method Run(argv: Argv) returns (status: Result<int, string>)
      modifies this
      ensures runs == old(runs) + [argv]
      ensures status == Await(Nth(outcomes, |old(runs)|))
    {
      status := Await(Nth(outcomes, |runs|));
      runs := runs + [argv];
    }
  }
}
