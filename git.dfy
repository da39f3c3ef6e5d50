/** The git repository as the change detectors see it: named branches, each with
    a head revision and a commit log, and a checked-out branch that checkout
    changes. Every checkout attempt and every history walk is recorded as an
    event, so that contracts can say which repository operations happened. */
module Git {
  import opened Wrappers
  import opened Common

  /** One changed file between the head commit (a side) and an older commit (b side). */
  datatype Diff = Diff(aPath: string, aBlob: string, bBlob: string)

  /** A commit of the log, with the diffs of the head commit against it. */
  datatype Commit = Commit(id: string, diffs: seq<Diff>)

  /** A branch: its head revision and its log from the head backward. */
  datatype History = History(head: string, log: seq<Commit>)

  datatype Event = CheckoutAttempt(branch: string) | Walk(branch: string)

  function CheckoutError(name: string): Error {
    Error(GitError, "pathspec did not match: " + name, None)
  }

  class Repository {
    var activeBranch: string
    const branches: map<string, History>
    ghost var events: seq<Event>

    ghost predicate Valid()
      reads this
    {
      activeBranch in branches
    }

    constructor (active: string, branches: map<string, History>)
      requires active in branches
      ensures Valid() && activeBranch == active && this.branches == branches && events == []
    {
      activeBranch := active;
      this.branches := branches;
      events := [];
    }

    /** str(repo.head.commit) */
    function HeadCommit(): string
      reads this
      requires Valid()
    {
      branches[activeBranch].head
    }

    /** repo.git.checkout(name): fails on an unknown branch. */
    method Checkout(name: string) returns (o: Outcome<Error>)
      requires Valid()
      modifies this
      ensures Valid()
      ensures o == if name in branches then Pass else Fail(CheckoutError(name))
      ensures activeBranch == if o.Pass? then name else old(activeBranch)
      ensures events == old(events) + [CheckoutAttempt(name)]
    {
      events := events + [CheckoutAttempt(name)];
      if name in branches {
        activeBranch := name;
        o := Pass;
      } else {
        o := Fail(CheckoutError(name));
      }
    }

    /** repo.iter_commits() on the checked-out branch. */
    method IterCommits() returns (log: seq<Commit>)
      requires Valid()
      modifies this`events
      ensures log == branches[activeBranch].log
      ensures events == old(events) + [Walk(activeBranch)]
    {
      events := events + [Walk(activeBranch)];
      log := branches[activeBranch].log;
    }
  }
}
