/** plumber/core.py: the older local-diff condition and the shell-condition stub.
    The older detector validates nothing: its fields hold whatever the
    configuration held (Null standing for Python's None), membership tests and
    indexing follow Python's `in` and `[]` on those values, it never memoizes,
    and its checkpoint follows the repository head at the time it is asked for. */
module Core {
  import opened Wrappers
  import opened Common
  import opened Git
  import opened DiffRules

  /** The exec/eval expression mode of _has_diff_expression, left abstract:
      expression, configured diff rules and detected diffs to a truth value
      or a raised error. */
  type ExpressionMode = (Value, Value, set<Diff>) -> Result<bool, Error>

  /** The condition's fields; Null is Python's None. */
  datatype Fields = Fields(targetDiffs: Value, activeBranch: Value, targetBranch: Value, checkpoint: Value, expression: Value)

  const Unset := Fields(Null, Null, Null, Null, Null)

  /** The fields configure leaves, and whether it got through. */
  datatype Configured = Configured(fields: Fields, outcome: Outcome<Error>)

  /** What configure does: each field is assigned only when its key is present;
      the membership test and lookup on `branch` raise when it is not a mapping. */
  function ConfigureEffect(f: Fields, config: Config, checkpoint: Value): Configured {
    var f1 := if DiffKey in config then f.(targetDiffs := config[DiffKey]) else f;
    var b := if BranchKey in config then BranchEffect(f1, config[BranchKey]) else Configured(f1, Pass);
    if b.outcome.Fail? then b
    else
      var f2 := b.fields.(checkpoint := checkpoint);
      Configured(if ExpressionKey in config then f2.(expression := config[ExpressionKey]) else f2, Pass)
  }

  /** `if ACTIVE in branch: ...; if TARGET in branch: ...` */
  function BranchEffect(f: Fields, bv: Value): Configured {
    match PyContains(bv, ActiveKey)
    case Err(e) => Configured(f, Fail(e))
    case Ok(hasActive) =>
      var a := if hasActive then PyIndex(bv, ActiveKey) else Ok(f.activeBranch);
      if a.Err? then Configured(f, Fail(a.error))
      else
        var f1 := f.(activeBranch := a.value);
        match PyContains(bv, TargetKey)
        case Err(e) => Configured(f1, Fail(e))
        case Ok(hasTarget) =>
          var t := if hasTarget then PyIndex(bv, TargetKey) else Ok(f1.targetBranch);
          if t.Err? then Configured(f1, Fail(t.error))
          else Configured(f1.(targetBranch := t.value), Pass)
  }

  /** configure never raises when `branch` is absent or a mapping, and then each
      field holds the configured value when its key is present and keeps its
      old value otherwise; a `branch` that is neither a mapping, a string nor a
      list makes it raise TypeError. */
  lemma ConfigureMeaning(f: Fields, config: Config, checkpoint: Value)
    ensures var c := ConfigureEffect(f, config, checkpoint);
      (BranchKey !in config || config[BranchKey].Dict?) ==>
        && c.outcome == Pass
        && c.fields.targetDiffs == (if DiffKey in config then config[DiffKey] else f.targetDiffs)
        && c.fields.checkpoint == checkpoint
        && c.fields.expression == (if ExpressionKey in config then config[ExpressionKey] else f.expression)
        && c.fields.activeBranch
           == (if BranchKey in config && ActiveKey in config[BranchKey].entries
               then config[BranchKey].entries[ActiveKey] else f.activeBranch)
        && c.fields.targetBranch
           == (if BranchKey in config && TargetKey in config[BranchKey].entries
               then config[BranchKey].entries[TargetKey] else f.targetBranch)
    ensures var c := ConfigureEffect(f, config, checkpoint);
      BranchKey in config && !(config[BranchKey].Dict? || config[BranchKey].Str? || config[BranchKey].List?) ==>
        c.outcome.Fail? && c.outcome.error.kind == TypeError
  {
  }

  // ---------------------------------------------------------------------
  // The history walk (_get_diffs_from_current)

  ghost function Elements(ds: seq<Diff>): set<Diff> {
    set d | d in ds
  }

  /** The set of diffs the walk gathers once the checkpoint is known to contain
      `commit`: `checkpoint[commit]` is only evaluated (and can only raise) when
      there is a commit to compare it with. */
  ghost function WalkedDiffs(log: seq<Commit>, checkpoint: Value): Result<set<Diff>, Error> {
    match DiffsSince(log, checkpoint)
    case Err(e) => Err(e)
    case Ok(ds) => Ok(Elements(ds))
  }

  /** _get_diffs_from_current(): None when the checkpoint has no `commit`. */
  ghost function DiffSetFromCurrent(checkpoint: Value, log: seq<Commit>): Result<Option<set<Diff>>, Error> {
    match PyContains(checkpoint, CommitKey)
    case Err(e) => Err(e)
    case Ok(has) =>
      if !has then Ok(None)
      else
        match WalkedDiffs(log, checkpoint)
        case Err(e) => Err(e)
        case Ok(ds) => Ok(Some(ds))
  }

  lemma {:induction false} InFlatten(cs: seq<Commit>, d: Diff)
    ensures d in Flatten(cs) <==> exists k :: 0 <= k < |cs| && d in cs[k].diffs
  {
    if cs != [] {
      InFlatten(cs[1..], d);
      assert forall k :: 1 <= k < |cs| ==> cs[k] == cs[1..][k - 1];
      if d in Flatten(cs[1..]) {
        var k :| 0 <= k < |cs[1..]| && d in cs[1..][k].diffs;
        assert d in cs[k + 1].diffs;
      }
    }
  }

  /** With a mapping checkpoint holding `commit`, the walk gathers the diffs of
      the newer detector's walk, as a set. */
  lemma WalkedDiffsMeaning(log: seq<Commit>, cp: map<string, Value>)
    requires CommitKey in cp
    ensures WalkedDiffs(log, Dict(cp)) == Ok(Elements(CollectFrom(log, 0, cp[CommitKey])))
  {
    if |log| == 0 {
      assert Elements(CollectFrom(log, 0, cp[CommitKey])) == {};
    }
  }

  /** Those are exactly the diffs of the commits up to and including the first
      one whose id is the checkpoint commit, or of all commits when none is. */
  lemma WalkedDiffsMembership(log: seq<Commit>, v: Value, d: Diff)
    ensures var e := Min(FirstMatchFrom(log, 0, v) + 1, |log|);
      d in Elements(CollectFrom(log, 0, v)) <==> exists k :: 0 <= k < e && d in log[k].diffs
  {
    var e := Min(FirstMatchFrom(log, 0, v) + 1, |log|);
    CollectSpan(log, 0, v);
    InSpan(log, e, d);
  }

  lemma InSpan(log: seq<Commit>, e: nat, d: Diff)
    requires e <= |log|
    ensures d in Flatten(log[0..e]) <==> exists k :: 0 <= k < e && d in log[k].diffs
  {
    var span := log[0..e];
    InFlatten(span, d);
    if d in Flatten(span) {
      var k :| 0 <= k < |span| && d in span[k].diffs;
      assert d in log[k].diffs;
    }
    if exists k :: 0 <= k < e && d in log[k].diffs {
      var k :| 0 <= k < e && d in log[k].diffs;
      assert span[k] == log[k];
    }
  }

  /** One commit of the walk: its diffs, and the rest of the walk unless it is the checkpoint commit. */
  lemma CollectStep(log: seq<Commit>, i: nat, v: Value)
    requires i < |log|
    ensures Elements(CollectFrom(log, i, v))
         == Elements(log[i].diffs) + (if Str(log[i].id) == v then {} else Elements(CollectFrom(log, i + 1, v)))
  {
    var rest := if Str(log[i].id) == v then [] else CollectFrom(log, i + 1, v);
    assert CollectFrom(log, i, v) == log[i].diffs + rest;
    assert Elements(log[i].diffs + rest) == Elements(log[i].diffs) + Elements(rest);
  }

  /** The loop over log: add every diff of each commit to the set, and stop
      after the commit whose id equals checkpoint[commit]. */
  method CollectDiffSet(log: seq<Commit>, checkpoint: Value) returns (r: Result<set<Diff>, Error>)
    ensures r == WalkedDiffs(log, checkpoint)
  {
    ghost var v := if PyIndex(checkpoint, CommitKey).Ok? then PyIndex(checkpoint, CommitKey).value else Null;
    var paths: set<Diff> := {};
    var i := 0;
    while i < |log|
      invariant 0 <= i <= |log|
      invariant i > 0 ==> PyIndex(checkpoint, CommitKey) == Ok(v)
      invariant paths + Elements(CollectFrom(log, i, v)) == Elements(CollectFrom(log, 0, v))
    {
      CollectStep(log, i, v);
      ghost var before := paths;
      paths := AddAll(paths, log[i].diffs);
      var cp := PyIndex(checkpoint, CommitKey);
      if cp.Err? {
        return Err(cp.error);
      }
      if Str(log[i].id) == cp.value {
        assert Elements(CollectFrom(log, i, v)) == Elements(log[i].diffs);
        assert paths == before + Elements(CollectFrom(log, i, v));
        return Ok(paths);
      }
      i := i + 1;
    }
    assert Elements(CollectFrom(log, i, v)) == {};
    r := Ok(paths);
  }

  /** `for diff in diffs: diff_paths.add(diff)` */
  method AddAll(paths: set<Diff>, diffs: seq<Diff>) returns (result: set<Diff>)
    ensures result == paths + Elements(diffs)
  {
    result := paths;
    var j := 0;
    while j < |diffs|
      invariant 0 <= j <= |diffs|
      invariant result == paths + Elements(diffs[..j])
    {
      assert diffs[..j + 1] == diffs[..j] + [diffs[j]];
      result := result + {diffs[j]};
      j := j + 1;
    }
    assert diffs[..j] == diffs;
  }

  // ---------------------------------------------------------------------
  // Any mode (_has_diff_all)

  /** What `target_diff[PATH]` yields for re.match: None when the rule has no
      `path`; raising when it is not indexable by a string, or when the pattern
      is not a string. */
  function RulePattern(rule: Value): (r: Result<Option<string>, Error>)
    ensures rule.Dict? ==> (r.Ok? <==> PathKey !in rule.entries || rule.entries[PathKey].Str?)
    ensures rule.Dict? && PathKey in rule.entries && rule.entries[PathKey].Str? ==>
              r == Ok(Some(rule.entries[PathKey].s))
    ensures r.Ok? && r.value.Some? ==> rule.Dict?
  {
    match PyContains(rule, PathKey)
    case Err(e) => Err(e)
    case Ok(has) =>
      if !has then Ok(None)
      else
        match PyIndex(rule, PathKey)
        case Err(e) => Err(e)
        case Ok(p) => if p.Str? then Ok(Some(p.s)) else Err(TypeErr("first argument must be string or compiled pattern"))
  }

  /** The inner loop for one rule: no diffs means the rule is never looked at;
      otherwise it is true when its pattern matches some changed path. */
  function RuleScanSet(rule: Value, ds: set<Diff>, m: Matcher): Result<bool, Error> {
    if ds == {} then Ok(false)
    else
      match RulePattern(rule)
      case Err(e) => Err(e)
      case Ok(p) => Ok(p.Some? && exists d | d in ds :: m(p.value, d.aPath))
  }

  /** The outer loop from rule i: the first matching rule returns True; running
      off the end returns None. */
  function LegacyScan(rules: seq<Value>, i: nat, ds: set<Diff>, m: Matcher): Result<Option<bool>, Error>
    requires i <= |rules|
    decreases |rules| - i
  {
    if i == |rules| then Ok(None)
    else
      match RuleScanSet(rules[i], ds, m)
      case Err(e) => Err(e)
      case Ok(hit) => if hit then Ok(Some(true)) else LegacyScan(rules, i + 1, ds, m)
  }

  /** _has_diff_all() once the diffs are known. */
  function AnyMode(targetDiffs: Value, ds: set<Diff>, m: Matcher): Result<Option<bool>, Error> {
    match PyIter(targetDiffs)
    case Err(e) => Err(e)
    case Ok(rules) => LegacyScan(rules, 0, ds, m)
  }

  /** The legacy any mode never answers False: it answers True exactly when some
      rule, reached without an earlier one raising, has a string `path` that
      matches a changed path, and otherwise falls off the end with None. */
  lemma {:induction false} LegacyScanMeaning(rules: seq<Value>, i: nat, ds: set<Diff>, m: Matcher)
    requires i <= |rules|
    ensures LegacyScan(rules, i, ds, m) != Ok(Some(false))
    ensures LegacyScan(rules, i, ds, m) == Ok(Some(true)) <==>
              exists k :: i <= k < |rules| && RuleScanSet(rules[k], ds, m) == Ok(true)
                          && forall j :: i <= j < k ==> RuleScanSet(rules[j], ds, m) == Ok(false)
    ensures LegacyScan(rules, i, ds, m) == Ok(None) <==>
              forall j :: i <= j < |rules| ==> RuleScanSet(rules[j], ds, m) == Ok(false)
    decreases |rules| - i
  {
    if i < |rules| {
      LegacyScanMeaning(rules, i + 1, ds, m);
      if RuleScanSet(rules[i], ds, m) == Ok(false) {
        if LegacyScan(rules, i, ds, m) == Ok(Some(true)) {
          var k :| i + 1 <= k < |rules| && RuleScanSet(rules[k], ds, m) == Ok(true)
                   && forall j :: i + 1 <= j < k ==> RuleScanSet(rules[j], ds, m) == Ok(false);
          assert forall j :: i <= j < k ==> RuleScanSet(rules[j], ds, m) == Ok(false);
        }
        if exists k :: i <= k < |rules| && RuleScanSet(rules[k], ds, m) == Ok(true)
                       && forall j :: i <= j < k ==> RuleScanSet(rules[j], ds, m) == Ok(false) {
          var k :| i <= k < |rules| && RuleScanSet(rules[k], ds, m) == Ok(true)
                   && forall j :: i <= j < k ==> RuleScanSet(rules[j], ds, m) == Ok(false);
          assert k != i;
        }
      }
    }
  }

  /** With no changed files no rule is ever inspected: even a list of malformed
      rules answers None. */
  lemma NoDiffsFallsThrough(rules: seq<Value>, m: Matcher)
    ensures AnyMode(List(rules), {}, m) == Ok(None)
  {
    LegacyScanMeaning(rules, 0, {}, m);
  }

  /** The any mode as core.py writes it: re.match(pattern, a_rawpath) gives a
      string pattern the raw bytes path, which Python 3 refuses with TypeError. */
  function RuleScanSetAsWritten(rule: Value, ds: set<Diff>, m: Matcher): Result<bool, Error> {
    if ds == {} then Ok(false)
    else
      match RulePattern(rule)
      case Err(e) => Err(e)
      case Ok(p) =>
        if p.Some? then Err(TypeErr("cannot use a string pattern on a bytes-like object"))
        else Ok(false)
  }

  /** The rule and changed file from the detector's own test: the path rule
      `mypath/.*` against the changed file `mypath/file1`. As written the rule
      raises TypeError; matching the decoded path finds the change. */
  lemma RawPathCounterexample(m: Matcher)
    requires m("mypath/.*", "mypath/file1")
    ensures var rule := Dict(map[PathKey := Str("mypath/.*")]);
      var ds := {Diff("mypath/file1", "", "")};
      && RuleScanSetAsWritten(rule, ds, m).Err?
      && RuleScanSetAsWritten(rule, ds, m).error.kind == TypeError
      && RuleScanSet(rule, ds, m) == Ok(true)
  {
    var rule := Dict(map[PathKey := Str("mypath/.*")]);
    var ds := {Diff("mypath/file1", "", "")};
    assert Diff("mypath/file1", "", "") in ds;
  }

  /** As written, no rule with a string `path` can ever answer True once there
      is a changed file; the corrected scan answers True exactly on a match. */
  lemma RawPathNeverMatches(rule: map<string, Value>, ds: set<Diff>, m: Matcher)
    requires ds != {} && PathKey in rule && rule[PathKey].Str?
    ensures RuleScanSetAsWritten(Dict(rule), ds, m).Err?
    ensures RuleScanSet(Dict(rule), ds, m) == Ok(exists d | d in ds :: m(rule[PathKey].s, d.aPath))
  {
  }

  // ---------------------------------------------------------------------
  // _has_diff and evaluate

  /** _has_diff() on a given log: True without a checkpoint commit, else the
      expression or the any mode over the walked diffs. */
  ghost function Decide(f: Fields, log: seq<Commit>, m: Matcher, x: ExpressionMode): Result<Option<bool>, Error> {
    match PyContains(f.checkpoint, CommitKey)
    case Err(e) => Err(e)
    case Ok(has) =>
      if !has then Ok(Some(true))
      else
        match WalkedDiffs(log, f.checkpoint)
        case Err(e) => Err(e)
        case Ok(ds) =>
          if f.expression != Null then
            match x(f.expression, f.targetDiffs, ds)
            case Err(e) => Err(e)
            case Ok(b) => Ok(Some(b))
          else AnyMode(f.targetDiffs, ds, m)
  }

  /** The history walk _has_diff performs on `branch`, if any. */
  function WalkEvents(checkpoint: Value, branch: string): seq<Event> {
    if PyContains(checkpoint, CommitKey) == Ok(true) then [Walk(branch)] else []
  }

  function NotABranchName(): Error {
    TypeErr("the target branch is not a branch name")
  }

  /** evaluate() with `current` checked out. */
  ghost function EvaluateEffect(f: Fields, current: string, branches: map<string, History>,
                                m: Matcher, x: ExpressionMode): Result<Option<bool>, Error>
    requires current in branches
  {
    if f.activeBranch != Null && Str(current) != f.activeBranch then Ok(Some(false))
    else if f.targetBranch != Null && Str(current) != f.targetBranch then
      if !f.targetBranch.Str? then Err(NotABranchName())
      else if f.targetBranch.s !in branches then Err(CheckoutError(f.targetBranch.s))
      else Decide(f, branches[f.targetBranch.s].log, m, x)
    else Decide(f, branches[current].log, m, x)
  }

  /** The repository operations evaluate() performs from `current`. */
  function EvaluateEvents(f: Fields, current: string, branches: map<string, History>): seq<Event> {
    if f.activeBranch != Null && Str(current) != f.activeBranch then []
    else if f.targetBranch != Null && Str(current) != f.targetBranch then
      (if !f.targetBranch.Str? then []
       else [CheckoutAttempt(f.targetBranch.s)]
            + (if f.targetBranch.s in branches then WalkEvents(f.checkpoint, f.targetBranch.s) else []))
      + [CheckoutAttempt(current)]
    else WalkEvents(f.checkpoint, current)
  }

  /** The branch gates of evaluate(): a mismatching active branch answers False
      without touching the repository; a different target branch is checked out
      first and the branch that was checked out is always checked out again
      last, whether the computation raised or not; without a checkpoint commit
      the answer on the evaluated branch is True. */
  lemma EvaluateMeaning(f: Fields, current: string, branches: map<string, History>, m: Matcher, x: ExpressionMode)
    requires current in branches
    ensures f.activeBranch != Null && f.activeBranch != Str(current) ==>
              EvaluateEffect(f, current, branches, m, x) == Ok(Some(false))
              && EvaluateEvents(f, current, branches) == []
    ensures (f.activeBranch == Null || f.activeBranch == Str(current))
            && f.targetBranch.Str? && f.targetBranch.s != current ==>
              var ev := EvaluateEvents(f, current, branches);
              |ev| >= 2 && ev[0] == CheckoutAttempt(f.targetBranch.s) && ev[|ev| - 1] == CheckoutAttempt(current)
    ensures (f.activeBranch == Null || f.activeBranch == Str(current))
            && (f.targetBranch == Null || f.targetBranch == Str(current) || (f.targetBranch.Str? && f.targetBranch.s in branches))
            && f.checkpoint.Dict? && CommitKey !in f.checkpoint.entries ==>
              EvaluateEffect(f, current, branches, m, x) == Ok(Some(true))
  {
  }

  class LocalDiffConditional {
    var targetDiffs: Value
    var activeBranch: Value
    var targetBranch: Value
    var repo: Repository?
    var checkpoint: Value
    var expression: Value
    /** re.match on the decoded path, and the exec/eval expression mode. */
    const matches: Matcher
    const expressionMode: ExpressionMode

    function Snapshot(): Fields
      reads this
    {
      Fields(targetDiffs, activeBranch, targetBranch, checkpoint, expression)
    }

    constructor (matches: Matcher, expressionMode: ExpressionMode)
      ensures Snapshot() == Unset && repo == null
      ensures this.matches == matches && this.expressionMode == expressionMode
    {
      targetDiffs, activeBranch, targetBranch := Null, Null, Null;
      repo, checkpoint, expression := null, Null, Null;
      this.matches, this.expressionMode := matches, expressionMode;
    }

    /** configure(config, checkpoint); `current` is the repository at the working directory. */
    method Configure(config: Config, checkpoint: Value, current: Repository) returns (o: Outcome<Error>)
      modifies this`targetDiffs, this`activeBranch, this`targetBranch, this`repo, this`checkpoint, this`expression
      ensures var c := ConfigureEffect(old(Snapshot()), config, checkpoint);
        Snapshot() == c.fields && o == c.outcome
      ensures repo == if o.Pass? then current else old(repo)
    {
      if DiffKey in config {
        targetDiffs := config[DiffKey];
      }
      ghost var f1 := Snapshot();
      if BranchKey in config {
        o := ConfigureBranch(config[BranchKey]);
        if o.Fail? {
          return;
        }
      }
      ghost var f2 := Snapshot();
      assert ConfigureEffect(old(Snapshot()), config, checkpoint).fields
          == if ExpressionKey in config then f2.(checkpoint := checkpoint, expression := config[ExpressionKey])
             else f2.(checkpoint := checkpoint);
      repo := current;
      this.checkpoint := checkpoint;
      if ExpressionKey in config {
        expression := config[ExpressionKey];
      }
      o := Pass;
    }

    /** The `branch` part of configure. */
    method ConfigureBranch(bv: Value) returns (o: Outcome<Error>)
      modifies this`activeBranch, this`targetBranch
      ensures Snapshot() == BranchEffect(old(Snapshot()), bv).fields
      ensures o == BranchEffect(old(Snapshot()), bv).outcome
    {
      var hasActive := PyContains(bv, ActiveKey);
      if hasActive.Err? {
        return Fail(hasActive.error);
      }
      if hasActive.value {
        var a := PyIndex(bv, ActiveKey);
        if a.Err? {
          return Fail(a.error);
        }
        activeBranch := a.value;
      }
      // cannot raise: `bv` already answered `in` above
      var hasTarget := PyContains(bv, TargetKey);
      if hasTarget.value {
        var t := PyIndex(bv, TargetKey);
        if t.Err? {
          return Fail(t.error);
        }
        targetBranch := t.value;
      }
      o := Pass;
    }

    /** create_checkpoint(): the head revision at the time of the call. */
    method CreateCheckpoint() returns (cp: Config)
      requires repo != null && repo.Valid()
      ensures cp.Keys == {CommitKey} && cp[CommitKey] == Str(repo.branches[repo.activeBranch].head)
    {
      cp := map[CommitKey := Str(repo.HeadCommit())];
    }

    /** evaluate(): no memoization; gated on the active branch; evaluated on the
        target branch with the previous branch checked out again in `finally`. */
    method Evaluate() returns (r: Result<Option<bool>, Error>)
      requires repo != null && repo.Valid()
      modifies repo
      ensures repo.Valid() && repo.activeBranch == old(repo.activeBranch)
      ensures r == EvaluateEffect(Snapshot(), old(repo.activeBranch), repo.branches, matches, expressionMode)
      ensures repo.events == old(repo.events) + EvaluateEvents(Snapshot(), old(repo.activeBranch), repo.branches)
    {
      var current := repo.activeBranch;
      if activeBranch != Null && Str(current) != activeBranch {
        return Ok(Some(false));
      }
      if targetBranch != Null && Str(current) != targetBranch {
        var previous := current;
        if targetBranch.Str? {
          var co := repo.Checkout(targetBranch.s);
          if co.Pass? {
            r := HasDiff();
          } else {
            r := Err(co.error);
          }
        } else {
          r := Err(NotABranchName());
        }
        // finally: check the previous branch out again
        var restore := repo.Checkout(previous);
      } else {
        r := HasDiff();
      }
    }

    /** _has_diff() */
    method HasDiff() returns (r: Result<Option<bool>, Error>)
      requires repo != null && repo.Valid()
      modifies repo`events
      ensures r == Decide(Snapshot(), repo.branches[repo.activeBranch].log, matches, expressionMode)
      ensures repo.events == old(repo.events) + WalkEvents(checkpoint, repo.activeBranch)
    {
      var has := PyContains(checkpoint, CommitKey);
      if has.Err? {
        return Err(has.error);
      }
      if !has.value {
        return Ok(Some(true));
      }
      var diffs := GetDiffsFromCurrent();
      if diffs.Err? {
        return Err(diffs.error);
      }
      if expression != Null {
        // _has_diff_expression()
        var b := expressionMode(expression, targetDiffs, diffs.value.value);
        r := if b.Err? then Err(b.error) else Ok(Some(b.value));
      } else {
        r := HasDiffAll(diffs.value.value);
      }
    }

    /** _get_diffs_from_current() */
    method GetDiffsFromCurrent() returns (r: Result<Option<set<Diff>>, Error>)
      requires repo != null && repo.Valid()
      modifies repo`events
      ensures r == DiffSetFromCurrent(checkpoint, repo.branches[repo.activeBranch].log)
      ensures repo.events == old(repo.events) + WalkEvents(checkpoint, repo.activeBranch)
    {
      var has := PyContains(checkpoint, CommitKey);
      if has.Err? {
        return Err(has.error);
      }
      if !has.value {
        return Ok(None);
      }
      var log := repo.IterCommits();
      var found := CollectDiffSet(log, checkpoint);
      r := if found.Err? then Err(found.error) else Ok(Some(found.value));
    }

    /** The loops of _has_diff_all over the configured rules and the detected diffs. */
    method HasDiffAll(ds: set<Diff>) returns (r: Result<Option<bool>, Error>)
      ensures r == AnyMode(targetDiffs, ds, matches)
    {
      var rules := PyIter(targetDiffs);
      if rules.Err? {
        return Err(rules.error);
      }
      var i := 0;
      while i < |rules.value|
        invariant 0 <= i <= |rules.value|
        invariant LegacyScan(rules.value, 0, ds, matches) == LegacyScan(rules.value, i, ds, matches)
      {
        var hit := ScanRule(rules.value[i], ds);
        if hit.Err? {
          return Err(hit.error);
        }
        if hit.value {
          return Ok(Some(true));
        }
        i := i + 1;
      }
      r := Ok(None);
    }

    /** The inner loop for one rule, over the set of detected diffs. */
    method ScanRule(rule: Value, ds: set<Diff>) returns (r: Result<bool, Error>)
      ensures r == RuleScanSet(rule, ds, matches)
    {
      var remaining := ds;
      while remaining != {}
        invariant remaining <= ds
        invariant remaining != ds ==> RulePattern(rule).Ok?
        invariant remaining != ds && RulePattern(rule).value.Some? ==>
                    forall d | d in ds - remaining :: !matches(RulePattern(rule).value.value, d.aPath)
        decreases remaining
      {
        var d :| d in remaining;
        var pattern := RulePattern(rule);
        if pattern.Err? {
          return Err(pattern.error);
        }
        if pattern.value.Some? && matches(pattern.value.value, d.aPath) {
          return Ok(true);
        }
        remaining := remaining - {d};
      }
      r := Ok(false);
    }
  }

  /** Without memoization, a second evaluate() consults the repository again:
      the same answer, and the same repository operations performed twice. */
  method EvaluateTwice(c: LocalDiffConditional) returns (r1: Result<Option<bool>, Error>, r2: Result<Option<bool>, Error>)
    requires c.repo != null && c.repo.Valid()
    modifies c.repo
    ensures r1 == r2
    ensures var ev := EvaluateEvents(c.Snapshot(), old(c.repo.activeBranch), c.repo.branches);
      c.repo.events == old(c.repo.events) + ev + ev
  {
    r1 := c.Evaluate();
    r2 := c.Evaluate();
  }

  /** The shell condition of core.py: every operation is a stub. */
  class ShellConditional {
    constructor ()
    {
    }

    method Configure(config: Config, checkpoint: Value)
    {
    }

    /** create_checkpoint() returns None. */
    method CreateCheckpoint() returns (cp: Option<Config>)
      ensures cp == None
    {
      cp := None;
    }

    /** evaluate() returns None, which the caller reads as not triggered. */
    method Evaluate() returns (r: Option<bool>)
      ensures r == None
    {
      r := None;
    }
  }
}
