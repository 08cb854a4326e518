/**
 * The pending-change count of `repo_status`: of the entries the
 * repository's status listing reports (untracked files included), the
 * number not flagged as ignored.
 */
module Status {
  import opened Wrappers

  /** One entry of the status listing: its path and whether git flags it as ignored. */
  datatype StatusEntry = StatusEntry(path: string, ignored: bool)

  /** Opening the working directory as a repository, or listing its statuses, failed. */
  datatype GitError = GitError(message: string)

  /** The entries' `filter(|s| !s.status().is_ignored()).count()`. */
  function CountPending(entries: seq<StatusEntry>): (n: nat)
    ensures n <= |entries|
    ensures n == 0 <==> forall i :: 0 <= i < |entries| ==> entries[i].ignored
    ensures n == |entries| <==> forall i :: 0 <= i < |entries| ==> !entries[i].ignored
  {
    if entries == [] then 0
    else
      var rest := CountPending(entries[1..]);
      assert forall i :: 1 <= i < |entries| ==> entries[i] == entries[1..][i - 1];
      (if entries[0].ignored then 0 else 1) + rest
  }

  /** Counting distributes over concatenation: the count is a sum over the entries. */
  lemma {:induction false} CountPendingAppend(a: seq<StatusEntry>, b: seq<StatusEntry>)
    ensures CountPending(a + b) == CountPending(a) + CountPending(b)
    decreases |a|
  {
    if a == [] {
      assert a + b == b;
    } else {
      assert (a + b)[0] == a[0];
      assert (a + b)[1..] == a[1..] + b;
      CountPendingAppend(a[1..], b);
    }
  }

  /** `repo_status`: the count, or the error of opening or listing the repository. */
  function RepoStatus(listing: Result<seq<StatusEntry>, GitError>): (r: Result<nat, GitError>)
    ensures r.Err? <==> listing.Err?
    ensures listing.Err? ==> r.error == listing.error
    ensures listing.Ok? ==> r.value <= |listing.value|
    ensures listing.Ok? ==> (r.value == 0 <==> forall i :: 0 <= i < |listing.value| ==> listing.value[i].ignored)
  {
    match listing
    case Ok(entries) => Ok(CountPending(entries))
    case Err(e) => Err(e)
  }
}
