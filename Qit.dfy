/**
 * The subcommands of `qit`: `commit`, `log`, `push` and `undo`. Each one
 * issues its `git` invocations in order, and the first one that cannot be
 * spawned or waited for ends it with that I/O error. Each handler is a
 * method over a `Runner`, proved against a function that gives the
 * invocations it issues and the result it returns.
 */
module Qit {
  import opened Wrappers
  import opened CommitMessage
  import opened Status
  import opened Git

  /** The errors a subcommand ends with. */
  datatype Error =
    | Io(cause: string)          // an invocation could not be spawned or waited for
    | UncommittedChanges         // "There are uncommitted changes"
    | UnknownCommitType          // a commit type outside the nine (the source panics)

  /** What a subcommand does: the invocations it issues, in order, and its result. */
  datatype Effect = Effect(issued: seq<Argv>, result: Result<(), Error>)

  /** Whether invocation `j` gets past `spawn()?` and `wait()?`. */
  predicate Completes(outcomes: seq<RunOutcome>, j: nat) {
    Await(Nth(outcomes, j)).Ok?
  }

  /** The `?` after one invocation: its I/O error ends the subcommand. */
  function Check(o: RunOutcome): Result<(), Error> {
    match Await(o)
    case Ok(_) => Ok(())
    case Err(cause) => Err(Io(cause))
  }

  /**
   * Issuing `steps` one after the other, the first one as invocation `k`,
   * each followed by `?`: an I/O failure ends the sequence, an exit status
   * never does.
   */
  function Sequence(steps: seq<Argv>, outcomes: seq<RunOutcome>, k: nat): (e: Effect)
    ensures |e.issued| <= |steps| && e.issued == steps[..|e.issued|]
    ensures steps != [] ==> e.issued != []
    ensures forall j :: k <= j < k + |e.issued| - 1 ==> Completes(outcomes, j)
    ensures e.result.Ok? <==> (e.issued == steps && forall j :: k <= j < k + |steps| ==> Completes(outcomes, j))
    ensures e.result.Err? ==>
              (e.issued != [] && e.result == Check(Nth(outcomes, k + |e.issued| - 1)))
    decreases |steps|
  {
    if steps == [] then Effect([], Ok(()))
    else
      match Check(Nth(outcomes, k))
      case Err(error) =>
        assert !Completes(outcomes, k);
        Effect([steps[0]], Err(error))
      case Ok(_) =>
        var rest := Sequence(steps[1..], outcomes, k + 1);
        Effect([steps[0]] + rest.issued, rest.result)
  }

  /** A single invocation: it is issued, and the subcommand's result is its `?`. */
  lemma SequenceOne(step: Argv, outcomes: seq<RunOutcome>, k: nat)
    ensures Sequence([step], outcomes, k) == Effect([step], Check(Nth(outcomes, k)))
  {
    assert [step][1..] == [];
  }

  /** Two invocations: the second is issued exactly when the first gets past its `?`. */
  lemma SequenceTwo(first: Argv, second: Argv, outcomes: seq<RunOutcome>, k: nat)
    ensures Sequence([first, second], outcomes, k)
         == if Completes(outcomes, k) then Effect([first, second], Check(Nth(outcomes, k + 1)))
            else Effect([first], Check(Nth(outcomes, k)))
  {
    assert [first, second][1..] == [second];
    SequenceOne(second, outcomes, k + 1);
  }

  // ---- commit ----

  /** Stage everything: `git add -A * .*`. */
  const AddAll: Argv := ["add", "-A", "*", ".*"]

  /** The effect of `commit`: an unknown type stops it before any invocation; otherwise stage everything, then commit with the formatted message. */
  function CommitEffect(typeName: string, area: Option<string>, message: string, toggle: Option<string>,
                        outcomes: seq<RunOutcome>, k: nat): Effect
  {
    match ParseType(typeName)
    case None => Effect([], Err(UnknownCommitType))
    case Some(t) => Sequence([AddAll, ["commit", "-am", Format(t, area, message, toggle)]], outcomes, k)
  }

  method Commit(git: Runner, typeName: string, area: Option<string>, message: string, toggle: Option<string>)
    returns (res: Result<(), Error>)
    modifies git
    ensures git.runs == old(git.runs) + CommitEffect(typeName, area, message, toggle, git.outcomes, |old(git.runs)|).issued
    ensures res == CommitEffect(typeName, area, message, toggle, git.outcomes, |old(git.runs)|).result
  {
    var parsed := ParseType(typeName);
    if parsed.None? {
      return Err(UnknownCommitType);
    }
    var formatted := Format(parsed.value, area, message, toggle);
    SequenceTwo(AddAll, ["commit", "-am", formatted], git.outcomes, |git.runs|);
    var status := git.Run(AddAll);
    if status.Err? {
      return Err(Io(status.error));
    }
    status := git.Run(["commit", "-am", formatted]);
    if status.Err? {
      return Err(Io(status.error));
    }
    return Ok(());
  }

  // ---- log ----

  /** The effect of `log`: one `git log`, with `--oneline` when a short log is asked for. */
  function LogEffect(short: bool, outcomes: seq<RunOutcome>, k: nat): Effect {
    Sequence([["log"] + (if short then ["--oneline"] else [])], outcomes, k)
  }

  method Log(git: Runner, short: bool) returns (res: Result<(), Error>)
    modifies git
    ensures git.runs == old(git.runs) + LogEffect(short, git.outcomes, |old(git.runs)|).issued
    ensures res == LogEffect(short, git.outcomes, |old(git.runs)|).result
  {
    var cmd := ["log"];
    if short {
      cmd := cmd + ["--oneline"];
    }
    assert cmd == ["log"] + (if short then ["--oneline"] else []);
    SequenceOne(cmd, git.outcomes, |git.runs|);
    var status := git.Run(cmd);
    if status.Err? {
      return Err(Io(status.error));
    }
    return Ok(());
  }

  // ---- push ----

  /** A status query that fails counts as "no pending changes". */
  function HasPendingChanges(count: Result<nat, GitError>): bool {
    match count
    case Ok(n) => n > 0
    case Err(_) => false
  }

  /** The effect of `push`: refused while changes are pending unless forced; otherwise one `git push`, with `--force` when forced. */
  function PushEffect(force: bool, listing: Result<seq<StatusEntry>, GitError>,
                      outcomes: seq<RunOutcome>, k: nat): Effect
  {
    if HasPendingChanges(RepoStatus(listing)) && !force then Effect([], Err(UncommittedChanges))
    else Sequence([["push"] + (if force then ["--force"] else [])], outcomes, k)
  }

  method Push(git: Runner, force: bool, listing: Result<seq<StatusEntry>, GitError>) returns (res: Result<(), Error>)
    modifies git
    ensures git.runs == old(git.runs) + PushEffect(force, listing, git.outcomes, |old(git.runs)|).issued
    ensures res == PushEffect(force, listing, git.outcomes, |old(git.runs)|).result
  {
    var pending := HasPendingChanges(RepoStatus(listing));
    if pending && !force {
      return Err(UncommittedChanges);
    }
    var cmd := ["push"];
    if force {
      cmd := cmd + ["--force"];
    }
    assert cmd == ["push"] + (if force then ["--force"] else []);
    SequenceOne(cmd, git.outcomes, |git.runs|);
    var status := git.Run(cmd);
    if status.Err? {
      return Err(Io(status.error));
    }
    return Ok(());
  }

  // ---- undo ----

  /** The effect of `undo`: one `git reset --soft HEAD~1`. */
  function UndoEffect(outcomes: seq<RunOutcome>, k: nat): Effect {
    Sequence([["reset", "--soft", "HEAD~1"]], outcomes, k)
  }

  method Undo(git: Runner) returns (res: Result<(), Error>)
    modifies git
    ensures git.runs == old(git.runs) + UndoEffect(git.outcomes, |old(git.runs)|).issued
    ensures res == UndoEffect(git.outcomes, |old(git.runs)|).result
  {
    SequenceOne(["reset", "--soft", "HEAD~1"], git.outcomes, |git.runs|);
    var status := git.Run(["reset", "--soft", "HEAD~1"]);
    if status.Err? {
      return Err(Io(status.error));
    }
    return Ok(());
  }

  // ---- dispatch ----

  /** A subcommand line as the argument parser delivers it. */
  datatype Subcommand =
    | CommitCmd(typeName: string, area: Option<string>, message: string)
    | LogCmd(short: bool)
    | PushCmd(force: bool)
    | UndoCmd

  /** The effect of running one parsed subcommand. */
  function DispatchEffect(cmd: Subcommand, toggle: Option<string>, listing: Result<seq<StatusEntry>, GitError>,
                          outcomes: seq<RunOutcome>, k: nat): Effect
  {
    match cmd
    case CommitCmd(typeName, area, message) => CommitEffect(typeName, area, message, toggle, outcomes, k)
    case LogCmd(short) => LogEffect(short, outcomes, k)
    case PushCmd(force) => PushEffect(force, listing, outcomes, k)
    case UndoCmd => UndoEffect(outcomes, k)
  }

  /**
   * The dispatch of `main`: the subcommand's handler, with the value of
   * QIT_DISABLE_EMOJIS and the repository's status listing as inputs.
   */
  method Dispatch(git: Runner, cmd: Subcommand, toggle: Option<string>, listing: Result<seq<StatusEntry>, GitError>)
    returns (res: Result<(), Error>)
    modifies git
    ensures git.runs == old(git.runs) + DispatchEffect(cmd, toggle, listing, git.outcomes, |old(git.runs)|).issued
    ensures res == DispatchEffect(cmd, toggle, listing, git.outcomes, |old(git.runs)|).result
  {
    match cmd
    case CommitCmd(typeName, area, message) =>
      res := Commit(git, typeName, area, message, toggle);
    case LogCmd(short) =>
      res := Log(git, short);
    case PushCmd(force) =>
      res := Push(git, force, listing);
    case UndoCmd =>
      res := Undo(git);
  }

  // ---- properties ----

  /**
   * `commit` stages everything and then commits with the formatted
   * message; the commit is issued exactly when staging got past `spawn()?`
   * and `wait()?`, so a failing exit status of `git add` does not stop it.
   * An unknown type issues nothing.
   */
  lemma CommitSteps(typeName: string, area: Option<string>, message: string, toggle: Option<string>,
                    outcomes: seq<RunOutcome>, k: nat)
    ensures ParseType(typeName).None? ==>
              CommitEffect(typeName, area, message, toggle, outcomes, k) == Effect([], Err(UnknownCommitType))
    ensures ParseType(typeName).Some? ==>
              var e := CommitEffect(typeName, area, message, toggle, outcomes, k);
              var commit := ["commit", "-am", Format(ParseType(typeName).value, area, message, toggle)];
              && e.issued == [AddAll] + (if Completes(outcomes, k) then [commit] else [])
              && e.result == (if Completes(outcomes, k) then Check(Nth(outcomes, k + 1)) else Check(Nth(outcomes, k)))
              && (Nth(outcomes, k).Exited? ==> e.issued == [AddAll, commit])
  {
    if ParseType(typeName).Some? {
      var t := ParseType(typeName).value;
      SequenceTwo(AddAll, ["commit", "-am", Format(t, area, message, toggle)], outcomes, k);
    }
  }

  /**
   * The push guard: `push` is refused, with nothing issued, exactly when
   * the status listing succeeded, holds an entry that is not ignored, and
   * the push is not forced. Otherwise it issues one `git push`, carrying
   * `--force` exactly when forced; a failed status listing never blocks it.
   */
  lemma PushGuard(force: bool, listing: Result<seq<StatusEntry>, GitError>, outcomes: seq<RunOutcome>, k: nat)
    ensures var e := PushEffect(force, listing, outcomes, k);
            var blocked := listing.Ok? && (exists i :: 0 <= i < |listing.value| && !listing.value[i].ignored) && !force;
            && (e.result == Err(UncommittedChanges) <==> blocked)
            && (blocked ==> e.issued == [])
            && (!blocked ==> e.issued == [if force then ["push", "--force"] else ["push"]]
                             && e.result == Check(Nth(outcomes, k)))
  {
    SequenceOne(["push"] + (if force then ["--force"] else []), outcomes, k);
    assert ["push"] + (if force then ["--force"] else []) == if force then ["push", "--force"] else ["push"];
    if listing.Ok? {
      var n := CountPending(listing.value);
      assert n > 0 <==> exists i :: 0 <= i < |listing.value| && !listing.value[i].ignored;
    }
  }

  /** `log` issues one `git log`, with `--oneline` exactly when a short log is asked for. */
  lemma LogSteps(short: bool, outcomes: seq<RunOutcome>, k: nat)
    ensures LogEffect(short, outcomes, k).issued == [if short then ["log", "--oneline"] else ["log"]]
    ensures LogEffect(short, outcomes, k).result == Check(Nth(outcomes, k))
  {
    SequenceOne(["log"] + (if short then ["--oneline"] else []), outcomes, k);
    assert ["log"] + (if short then ["--oneline"] else []) == if short then ["log", "--oneline"] else ["log"];
  }

  /** `undo` issues exactly `git reset --soft HEAD~1`. */
  lemma UndoSteps(outcomes: seq<RunOutcome>, k: nat)
    ensures UndoEffect(outcomes, k).issued == [["reset", "--soft", "HEAD~1"]]
    ensures UndoEffect(outcomes, k).result == Check(Nth(outcomes, k))
  {
    SequenceOne(["reset", "--soft", "HEAD~1"], outcomes, k);
  }

  /**
   * Every subcommand issues at most two invocations, and only `commit`
   * issues two; one that issues none has failed on a local check (an
   * unknown commit type or uncommitted changes) and not on `git`.
   */
  lemma DispatchBounds(cmd: Subcommand, toggle: Option<string>, listing: Result<seq<StatusEntry>, GitError>,
                       outcomes: seq<RunOutcome>, k: nat)
    ensures var e := DispatchEffect(cmd, toggle, listing, outcomes, k);
            && |e.issued| <= 2
            && (|e.issued| == 2 ==> cmd.CommitCmd?)
            && (e.issued == [] <==> e.result == Err(UnknownCommitType) || e.result == Err(UncommittedChanges))
  {
    match cmd
    case CommitCmd(typeName, area, message) => CommitSteps(typeName, area, message, toggle, outcomes, k);
    case LogCmd(short) => LogSteps(short, outcomes, k);
    case PushCmd(force) => PushGuard(force, listing, outcomes, k);
    case UndoCmd => UndoSteps(outcomes, k);
  }
}
