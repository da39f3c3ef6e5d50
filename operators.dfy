/** plumber/operators.py: the local-diff condition and the step executor. */
module Operators {
  import opened Wrappers
  import opened Common
  import opened Git
  import opened DiffRules

  // ---------------------------------------------------------------------
  // LocalDiffConditional

  /** The condition's configuration fields, as configure leaves them. */
  datatype Settings = Settings(
    id: Option<string>,
    targetDiffs: Option<seq<Value>>,
    activeBranch: Option<string>,
    targetBranch: Option<string>,
    checkpoint: Option<Value>,
    expression: Option<string>,
    newCheckpoint: Option<string>)

  const Unconfigured := Settings(None, None, None, None, None, None, None)

  /** What configure does to the fields, step by step: a failing lookup stops
      it with the fields assigned so far. `repoOpened` says whether it got as far
      as opening the repository. */
  datatype ConfigureStep = ConfigureStep(settings: Settings, outcome: Outcome<Error>, repoOpened: bool)

  function ConfigureEffect(s: Settings, config: Config, checkpoint: Value, head: string): ConfigureStep {
    var h := HeadEffect(s, config);
    if h.outcome.Fail? then h
    else
      match GetOrDefault(config, BranchKey, Null, Some(DictKind))
      case Err(e) => ConfigureStep(h.settings, Fail(e), false)
      case Ok(bv) =>
        var b := BranchEffect(h.settings, bv);
        if b.outcome.Fail? then b
        else TailEffect(b.settings, config, checkpoint, head)
  }

  /** The `id` and `diff` part of configure. */
  function HeadEffect(s: Settings, config: Config): (step: ConfigureStep)
    ensures !step.repoOpened
  {
    match GetOrDefault(config, IdKey, Null, Some(StrKind))
    case Err(e) => ConfigureStep(s, Fail(e), false)
    case Ok(idv) =>
      var s1 := s.(id := if idv.Str? then Some(idv.s) else None);
      if !idv.Str? then ConfigureStep(s1, Fail(ConfigErr("id not specified")), false)
      else
        match GetOrDefault(config, DiffKey, Null, Some(ListKind))
        case Err(e) => ConfigureStep(s1, Fail(e), false)
        case Ok(dv) =>
          var s2 := s1.(targetDiffs := if dv.List? then Some(dv.items) else None);
          if !dv.List? then ConfigureStep(s2, Fail(ConfigErr("No diffs specified in the localdiff condition")), false)
          else ConfigureStep(s2, Pass, false)
  }

  /** The `branch` part of configure: active, then target, when `branch` is a mapping. */
  function BranchEffect(s: Settings, bv: Value): (step: ConfigureStep)
    ensures !step.repoOpened
  {
    if !bv.Dict? then ConfigureStep(s, Pass, false)
    else
      match OptionalStr(bv.entries, ActiveKey)
      case Err(e) => ConfigureStep(s, Fail(e), false)
      case Ok(active) =>
        var s3 := s.(activeBranch := active);
        match OptionalStr(bv.entries, TargetKey)
        case Err(e) => ConfigureStep(s3, Fail(e), false)
        case Ok(target) => ConfigureStep(s3.(targetBranch := target), Pass, false)
  }

  /** The rest of configure: the repository, its head, the checkpoint, the expression. */
  function TailEffect(s: Settings, config: Config, checkpoint: Value, head: string): (step: ConfigureStep)
    ensures step.repoOpened
  {
    var s5 := s.(newCheckpoint := Some(head), checkpoint := Some(checkpoint));
    match OptionalStr(config, ExpressionKey)
    case Err(e) => ConfigureStep(s5, Fail(e), true)
    case Ok(expr) => ConfigureStep(s5.(expression := expr), Pass, true)
  }

  /** The configuration configure accepts. */
  predicate ValidConditionConfig(config: Config) {
    && IdKey in config && config[IdKey].Str?
    && DiffKey in config && config[DiffKey].List?
    && (BranchKey in config ==>
          && config[BranchKey].Dict?
          && (ActiveKey in config[BranchKey].entries ==> config[BranchKey].entries[ActiveKey].Str?)
          && (TargetKey in config[BranchKey].entries ==> config[BranchKey].entries[TargetKey].Str?))
    && (ExpressionKey in config ==> config[ExpressionKey].Str?)
  }

  /** configure raises ConfigError exactly when the configuration is invalid
      (id missing or not a string, diff missing or not a list, a branch setting
      or the expression of the wrong type); otherwise the fields hold the
      configured values, the head revision and the checkpoint. A branch
      setting that is absent leaves the field as it was (None on a new object). */
  lemma ConfigureMeaning(s: Settings, config: Config, checkpoint: Value, head: string)
    ensures var step := ConfigureEffect(s, config, checkpoint, head);
      && (step.outcome.Pass? <==> ValidConditionConfig(config))
      && (step.outcome.Fail? ==> step.outcome.error.kind == ConfigError)
      && (step.outcome.Pass? ==>
            && step.repoOpened
            && step.settings.id == Some(config[IdKey].s)
            && step.settings.targetDiffs == Some(config[DiffKey].items)
            && step.settings.checkpoint == Some(checkpoint)
            && step.settings.newCheckpoint == Some(head)
            && step.settings.expression == (if ExpressionKey in config then Some(config[ExpressionKey].s) else None)
            && step.settings.activeBranch ==
                 (if BranchKey in config
                  then (if ActiveKey in config[BranchKey].entries then Some(config[BranchKey].entries[ActiveKey].s) else None)
                  else s.activeBranch)
            && step.settings.targetBranch ==
                 (if BranchKey in config
                  then (if TargetKey in config[BranchKey].entries then Some(config[BranchKey].entries[TargetKey].s) else None)
                  else s.targetBranch))
  {
  }

  /** What evaluate computes when no result is memoized yet. */
  function EvaluateEffect(s: Settings, current: string, branches: map<string, History>, m: Matcher, ev: Evaluator)
    : Result<bool, Error>
    requires s.targetDiffs.Some? && s.checkpoint.Some? && current in branches
  {
    if s.activeBranch.Some? && current != s.activeBranch.value then Ok(false)
    else if s.targetBranch.Some? && current != s.targetBranch.value then
      if s.targetBranch.value in branches then
        Detect(s.targetDiffs.value, s.checkpoint.value, s.expression, branches[s.targetBranch.value].log, m, ev)
      else Err(CheckoutError(s.targetBranch.value))
    else Detect(s.targetDiffs.value, s.checkpoint.value, s.expression, branches[current].log, m, ev)
  }

  function WalkEvents(s: Settings, branch: string): seq<Event>
    requires s.checkpoint.Some?
  {
    if PyContains(s.checkpoint.value, CommitKey) == Ok(true) then [Walk(branch)] else []
  }

  /** The repository operations evaluate performs when no result is memoized. */
  function EvaluateEvents(s: Settings, current: string, branches: map<string, History>): seq<Event>
    requires s.checkpoint.Some?
  {
    if s.activeBranch.Some? && current != s.activeBranch.value then []
    else if s.targetBranch.Some? && current != s.targetBranch.value then
      [CheckoutAttempt(s.targetBranch.value)]
      + (if s.targetBranch.value in branches then WalkEvents(s, s.targetBranch.value) else [])
      + [CheckoutAttempt(current)]
    else WalkEvents(s, current)
  }

  class LocalDiffConditional {
    var id: Option<string>
    var targetDiffs: Option<seq<Value>>
    var activeBranch: Option<string>
    var targetBranch: Option<string>
    var repo: Repository?
    var checkpoint: Option<Value>
    var expression: Option<string>
    var result: Option<bool>
    var newCheckpoint: Option<string>
    /** re.match and evaluate_expression, the collaborators left abstract. */
    const matches: Matcher
    const evaluator: Evaluator
    /** configure has completed without raising. */
    ghost var configured: bool

    ghost predicate Valid()
      reads this, repo
    {
      configured ==>
        && repo != null && repo.Valid()
        && id.Some? && targetDiffs.Some? && checkpoint.Some? && newCheckpoint.Some?
    }

    function Snapshot(): Settings
      reads this
    {
      Settings(id, targetDiffs, activeBranch, targetBranch, checkpoint, expression, newCheckpoint)
    }

    constructor (matches: Matcher, evaluator: Evaluator)
      ensures Valid() && !configured
      ensures Snapshot() == Unconfigured && result == None && repo == null
      ensures this.matches == matches && this.evaluator == evaluator
    {
      id, targetDiffs, activeBranch, targetBranch := None, None, None, None;
      repo, checkpoint, expression, result, newCheckpoint := null, None, None, None, None;
      this.matches, this.evaluator := matches, evaluator;
      configured := false;
    }

    /** configure(config, checkpoint); `current` is the repository at the working directory. */
    method Configure(config: Config, checkpoint: Value, current: Repository) returns (o: Outcome<Error>)
      requires current.Valid()
      modifies this
      ensures var step := ConfigureEffect(old(Snapshot()), config, checkpoint, current.HeadCommit());
        Snapshot() == step.settings && o == step.outcome
        && repo == (if step.repoOpened then current else old(repo))
      ensures result == old(result)
      ensures configured == o.Pass? && Valid()
    {
      ghost var whole := ConfigureEffect(Snapshot(), config, checkpoint, current.HeadCommit());
      configured := false;
      o := ConfigureHead(config);
      if o.Fail? {
        assert whole == HeadEffect(old(Snapshot()), config);
        return;
      }
      ghost var afterHead := Snapshot();
      var bv := GetOrDefault(config, BranchKey, Null, Some(DictKind));
      if bv.Err? {
        assert whole == ConfigureStep(afterHead, Fail(bv.error), false);
        return Fail(bv.error);
      }
      o := ConfigureBranches(bv.value);
      if o.Fail? {
        assert whole == BranchEffect(afterHead, bv.value);
        return;
      }
      ghost var afterBranches := Snapshot();
      assert whole == TailEffect(afterBranches, config, checkpoint, current.HeadCommit());
      o := ConfigureTail(config, checkpoint, current);
      configured := o.Pass?;
    }

    /** The rest of configure: open the repository, record its head and the
        checkpoint, read the expression. */
    method ConfigureTail(config: Config, checkpoint: Value, current: Repository) returns (o: Outcome<Error>)
      requires current.Valid()
      modifies this`repo, this`newCheckpoint, this`checkpoint, this`expression
      ensures Snapshot() == TailEffect(old(Snapshot()), config, checkpoint, current.HeadCommit()).settings
      ensures o == TailEffect(old(Snapshot()), config, checkpoint, current.HeadCommit()).outcome
      ensures repo == current
    {
      repo := current;
      newCheckpoint := Some(current.HeadCommit());
      this.checkpoint := Some(checkpoint);
      var expr := OptionalStr(config, ExpressionKey);
      if expr.Err? { return Fail(expr.error); }
      expression := expr.value;
      o := Pass;
    }

    /** The `id` and `diff` lookups of configure. */
    method ConfigureHead(config: Config) returns (o: Outcome<Error>)
      modifies this`id, this`targetDiffs
      ensures Snapshot() == HeadEffect(old(Snapshot()), config).settings
      ensures o == HeadEffect(old(Snapshot()), config).outcome
    {
      var idv := GetOrDefault(config, IdKey, Null, Some(StrKind));
      if idv.Err? { return Fail(idv.error); }
      id := if idv.value.Str? then Some(idv.value.s) else None;
      if id.None? { return Fail(ConfigErr("id not specified")); }
      var dv := GetOrDefault(config, DiffKey, Null, Some(ListKind));
      if dv.Err? { return Fail(dv.error); }
      targetDiffs := if dv.value.List? then Some(dv.value.items) else None;
      if targetDiffs.None? { return Fail(ConfigErr("No diffs specified in the localdiff condition")); }
      o := Pass;
    }

    /** The `branch` lookups of configure. */
    method ConfigureBranches(bv: Value) returns (o: Outcome<Error>)
      modifies this`activeBranch, this`targetBranch
      ensures Snapshot() == BranchEffect(old(Snapshot()), bv).settings
      ensures o == BranchEffect(old(Snapshot()), bv).outcome
    {
      o := Pass;
      if bv.Dict? {
        var active := OptionalStr(bv.entries, ActiveKey);
        if active.Err? { return Fail(active.error); }
        activeBranch := active.value;
        var target := OptionalStr(bv.entries, TargetKey);
        if target.Err? { return Fail(target.error); }
        targetBranch := target.value;
      }
    }
    /** create_checkpoint(): the head revision captured by configure. */
    method CreateCheckpoint() returns (cp: Config)
      requires Valid() && configured
      ensures cp == map[CommitKey := Str(newCheckpoint.value)]
    {
      cp := map[CommitKey := Str(newCheckpoint.value)];
    }

    /** evaluate(): memoized; gated on the active branch; evaluated on the target
        branch with the previous branch checked out again afterwards. */
    method Evaluate() returns (r: Result<bool, Error>)
      requires Valid() && configured
      modifies this`result, repo
      ensures Valid()
      ensures repo.activeBranch == old(repo.activeBranch)
      ensures old(result).Some? ==>
                r == Ok(old(result).value) && result == old(result) && repo.events == old(repo.events)
      ensures old(result).None? ==>
                && r == EvaluateEffect(Snapshot(), old(repo.activeBranch), repo.branches, matches, evaluator)
                && result == (if r.Ok? then Some(r.value) else None)
                && repo.events == old(repo.events) + EvaluateEvents(Snapshot(), old(repo.activeBranch), repo.branches)
    {
      if result.Some? {
        return Ok(result.value);
      }
      var current := repo.activeBranch;
      if activeBranch.Some? && current != activeBranch.value {
        result := Some(false);
        return Ok(false);
      }
      if targetBranch.Some? && current != targetBranch.value {
        var previous := current;
        var co := repo.Checkout(targetBranch.value);
        if co.Pass? {
          r := HasDiff();
          if r.Ok? {
            result := Some(r.value);
          }
        } else {
          r := Err(co.error);
        }
        // finally: check the previous branch out again
        var restore := repo.Checkout(previous);
        assert restore.Pass?;
      } else {
        r := HasDiff();
        if r.Ok? {
          result := Some(r.value);
        }
      }
    }

    /** _has_diff(): true without a checkpoint commit, otherwise expression or any mode. */
    method HasDiff() returns (r: Result<bool, Error>)
      requires Valid() && configured
      modifies repo`events
      ensures r == Detect(targetDiffs.value, checkpoint.value, expression, repo.branches[repo.activeBranch].log, matches, evaluator)
      ensures repo.events == old(repo.events) + WalkEvents(Snapshot(), repo.activeBranch)
    {
      var has := PyContains(checkpoint.value, CommitKey);
      if has.Err? {
        return Err(has.error);
      }
      if !has.value {
        return Ok(true);
      }
      if expression.Some? {
        r := HasDiffExpression();
      } else {
        r := HasDiffAll();
      }
    }

    /** _get_diffs_from_current(): None without a checkpoint commit. */
    method GetDiffsFromCurrent() returns (r: Result<Option<seq<Diff>>, Error>)
      requires Valid() && configured
      modifies repo`events
      ensures r == DiffsFromCurrent(checkpoint.value, repo.branches[repo.activeBranch].log)
      ensures repo.events == old(repo.events) + WalkEvents(Snapshot(), repo.activeBranch)
    {
      var has := PyContains(checkpoint.value, CommitKey);
      if has.Err? {
        return Err(has.error);
      }
      if !has.value {
        return Ok(None);
      }
      var log := repo.IterCommits();
      var found, commitFound := CollectDiffs(log, checkpoint.value);
      r := if found.Err? then Err(found.error) else Ok(Some(found.value));
    }

    /** _has_diff_all() */
    method HasDiffAll() returns (r: Result<bool, Error>)
      requires Valid() && configured && PyContains(checkpoint.value, CommitKey) == Ok(true)
      modifies repo`events
      ensures var walked := DiffsSince(repo.branches[repo.activeBranch].log, checkpoint.value);
        r == if walked.Err? then Err(walked.error) else AnyScan(targetDiffs.value, 0, walked.value, matches)
      ensures repo.events == old(repo.events) + [Walk(repo.activeBranch)]
    {
      var diffs := GetDiffsFromCurrent();
      if diffs.Err? {
        return Err(diffs.error);
      }
      r := ScanAny(diffs.value.value);
    }

    /** _has_diff_expression() */
    method HasDiffExpression() returns (r: Result<bool, Error>)
      requires Valid() && configured && PyContains(checkpoint.value, CommitKey) == Ok(true) && expression.Some?
      modifies repo`events
      ensures var walked := DiffsSince(repo.branches[repo.activeBranch].log, checkpoint.value);
        r == if walked.Err? then Err(walked.error)
             else ExpressionMode(expression.value, targetDiffs.value, walked.value, matches, evaluator)
      ensures repo.events == old(repo.events) + [Walk(repo.activeBranch)]
    {
      var diffs := GetDiffsFromCurrent();
      if diffs.Err? {
        return Err(diffs.error);
      }
      var vars := BindVariables(diffs.value.value);
      if vars.Err? {
        return Err(vars.error);
      }
      r := EvaluateExpression(evaluator, expression.value, vars.value);
    }

    /** The loops of _has_diff_all over the rules and the detected diffs. */
    method ScanAny(diffs: seq<Diff>) returns (r: Result<bool, Error>)
      requires Valid() && configured
      ensures r == AnyScan(targetDiffs.value, 0, diffs, matches)
    {
      var rules := targetDiffs.value;
      var i := 0;
      while i < |rules|
        invariant 0 <= i <= |rules|
        invariant AnyScan(rules, 0, diffs, matches) == AnyScan(rules, i, diffs, matches)
      {
        var rule := rules[i];
        if !rule.Dict? {
          return Err(ConfigErr("Invalid diff configuration specified"));
        }
        var j := 0;
        while j < |diffs|
          invariant 0 <= j <= |diffs|
          invariant RuleScan(rule.entries, diffs, 0, matches) == RuleScan(rule.entries, diffs, j, matches)
        {
          var path := GetOrDefault(rule.entries, PathKey, Null, Some(StrKind));
          if path.Err? {
            return Err(path.error);
          }
          if path.value.Str? && matches(path.value.s, diffs[j].aPath) {
            var content := GetOrDefault(rule.entries, ContentKey, Null, Some(StrKind));
            if content.Err? {
              return Err(content.error);
            }
            if content.value.Str? {
              if HasContentDiff(content.value.s, diffs[j], matches) {
                return Ok(true);
              }
            } else {
              return Ok(true);
            }
          }
          j := j + 1;
        }
        i := i + 1;
      }
      r := Ok(false);
    }

    /** The loops of _has_diff_expression that fill the variable bindings. */
    method BindVariables(diffs: seq<Diff>) returns (r: Result<map<string, bool>, Error>)
      requires Valid() && configured
      ensures r == ExprScan(targetDiffs.value, 0, diffs, map[], matches)
    {
      var rules := targetDiffs.value;
      var exp: map<string, bool> := map[];
      var i := 0;
      while i < |rules|
        invariant 0 <= i <= |rules|
        invariant ExprScan(rules, 0, diffs, map[], matches) == ExprScan(rules, i, diffs, exp, matches)
      {
        var rule := rules[i];
        if !rule.Dict? {
          return Err(ConfigErr("Invalid diff configuration specified"));
        }
        var idv := GetOrDefault(rule.entries, IdKey, Null, Some(StrKind));
        if idv.Err? {
          return Err(idv.error);
        }
        if idv.value.Str? {
          var id := idv.value.s;
          var path := GetOrDefault(rule.entries, PathKey, Null, Some(StrKind));
          if path.Err? {
            return Err(path.error);
          }
          if path.value.Str? {
            ghost var before := exp;
            var j := 0;
            while j < |diffs|
              invariant 0 <= j <= |diffs|
              invariant ExprRuleScan(id, rule.entries, diffs, 0, before, matches)
                     == ExprRuleScan(id, rule.entries, diffs, j, exp, matches)
            {
              if matches(rule.entries[PathKey].s, diffs[j].aPath) {
                var content := GetOrDefault(rule.entries, ContentKey, Null, Some(StrKind));
                if content.Err? {
                  return Err(content.error);
                }
                if content.value.Str? {
                  if id !in exp || !exp[id] {
                    exp := exp[id := HasContentDiff(content.value.s, diffs[j], matches)];
                  }
                } else {
                  exp := exp[id := true];
                }
              }
              j := j + 1;
            }
            if id !in exp {
              exp := exp[id := false];
            }
          }
        }
        i := i + 1;
      }
      r := Ok(exp);
    }
  }

  /** The loop of _get_diffs_from_current: the diffs of each commit, in log
      order, up to and including the checkpoint commit; `checkpoint[commit]`
      is looked up after each commit's diffs are gathered. */
  method CollectDiffs(log: seq<Commit>, checkpoint: Value) returns (r: Result<seq<Diff>, Error>, commitFound: bool)
    ensures r == DiffsSince(log, checkpoint)
    ensures PyIndex(checkpoint, CommitKey).Ok? ==>
              (commitFound <==> FirstMatchFrom(log, 0, PyIndex(checkpoint, CommitKey).value) < |log|)
  {
    ghost var v := if PyIndex(checkpoint, CommitKey).Ok? then PyIndex(checkpoint, CommitKey).value else Null;
    var found := [];
    commitFound := false;
    var i := 0;
    while i < |log|
      invariant 0 <= i <= |log|
      invariant i > 0 ==> PyIndex(checkpoint, CommitKey) == Ok(v)
      invariant found + CollectFrom(log, i, v) == CollectFrom(log, 0, v)
      invariant FirstMatchFrom(log, 0, v) == FirstMatchFrom(log, i, v)
      invariant !commitFound
    {
      found := found + log[i].diffs;
      var cp := PyIndex(checkpoint, CommitKey);
      if cp.Err? {
        return Err(cp.error), false;
      }
      commitFound := Str(log[i].id) == cp.value;
      if commitFound {
        assert found == CollectFrom(log, 0, v);
        return Ok(found), true;
      }
      i := i + 1;
    }
    assert CollectFrom(log, i, v) == [];
    assert found == CollectFrom(log, 0, v);
    if |log| > 0 {
      assert PyIndex(checkpoint, CommitKey) == Ok(v);
      assert DiffsSince(log, checkpoint) == Ok(CollectFrom(log, 0, v));
    }
    r := Ok(found);
  }

  /** A second evaluate returns the memoized result and leaves the repository
      alone: `afterFirst` is the repository's record of operations once the
      first call has returned. */
  method EvaluateTwice(c: LocalDiffConditional)
    returns (first: Result<bool, Error>, second: Result<bool, Error>, ghost afterFirst: seq<Event>)
    requires c.Valid() && c.configured
    modifies c`result, c.repo
    ensures afterFirst == old(c.repo.events)
              + (if old(c.result).None? then EvaluateEvents(c.Snapshot(), old(c.repo.activeBranch), c.repo.branches) else [])
    ensures first.Ok? ==> second == first && c.repo.events == afterFirst
    ensures c.repo.activeBranch == old(c.repo.activeBranch)
  {
    first := c.Evaluate();
    afterFirst := c.repo.events;
    second := c.Evaluate();
  }
  // ---------------------------------------------------------------------------
  // Executor: runs the configured steps in a shell, sequentially or as one batch.
  // ---------------------------------------------------------------------------

  /** The script run after a failing step. */
  const OnFailureScript := "touch failed"

  /** Exit code recorded for a step that exceeded its timeout. */
  const TimeoutReturnCode := 130

  /** Exit code of a shell asked to run a command it does not know. */
  const UnknownCommandCode := 127

  /** How the shell behaves on one script: exit code, captured output, how many
      seconds it runs, and what it has written when a timeout stops it. */
  datatype Behaviour = Behaviour(code: int, stdout: string, stderr: string, seconds: nat,
                                 partialOut: Option<string>, partialErr: Option<string>)

  /** What one shell invocation produced: an exit, or a timeout with the output
      captured so far and the timeout that expired. */
  datatype RunOutcome =
    | Exited(code: int, stdout: string, stderr: string)
    | TimedOut(partialOut: Option<string>, partialErr: Option<string>, after: int)

  /** subprocess.run([script], shell=True, capture_output=True[, timeout=...]). */
  function Respond(behaviour: map<string, Behaviour>, script: string, timeout: Option<int>): (o: RunOutcome)
    ensures o.TimedOut? <==> script in behaviour && timeout.Some? && behaviour[script].seconds > timeout.value
  {
    if script !in behaviour then Exited(UnknownCommandCode, "", "")
    else
      var b := behaviour[script];
      if timeout.Some? && b.seconds > timeout.value then TimedOut(b.partialOut, b.partialErr, timeout.value)
      else Exited(b.code, b.stdout, b.stderr)
  }

  /** The record _run_script returns: step, return code, stdout, stderr. */
  datatype StepResult = StepResult(step: string, returnCode: int, stdout: Option<string>, stderr: Option<string>)

  /** '{}'.format(b) of an optional byte string: None, or b'...'. */
  function BytesText(b: Option<string>): string {
    match b
    case None => "None"
    case Some(s) => "b'" + s + "'"
  }

  /** The result record built from one shell invocation of `script`. */
  function Shape(script: string, o: RunOutcome): (r: StepResult)
    ensures r.step == script
    ensures o.Exited? ==> r.returnCode == o.code && r.stdout == Some(o.stdout) && r.stderr == Some(o.stderr)
    ensures o.TimedOut? ==> r.returnCode == TimeoutReturnCode && r.returnCode != 0 && r.stdout == o.partialOut
    ensures o.TimedOut? ==> (r.stderr.Some? &&
              r.stderr.value == BytesText(o.partialErr) + " \nStep execution timed out after " + IntText(o.after) + " seconds")
  {
    match o
    case Exited(code, out, err) => StepResult(script, code, Some(out), Some(err))
    case TimedOut(out, err, after) =>
      StepResult(script, TimeoutReturnCode, out,
                 Some(BytesText(err) + " \nStep execution timed out after " + IntText(after) + " seconds"))
  }

  /** The texts the steps contribute to the batch script: f'{step}' is str(step). */
  function StepTexts(steps: seq<Value>): (r: seq<string>)
    ensures |r| == |steps|
    ensures forall k :: 0 <= k < |steps| ==> r[k] == PyStr(steps[k])
    ensures forall k :: 0 <= k < |steps| && steps[k].Str? ==> r[k] == steps[k].s
    ensures forall k :: 0 <= k < |steps| && !steps[k].Str? ==> r[k] == Repr(steps[k])
  {
    seq(|steps|, k requires 0 <= k < |steps| => PyStr(steps[k]))
  }

  /** ''.join(f'\n {l}' for l in steps). */
  function BatchScript(texts: seq<string>): string {
    if |texts| == 0 then "" else BatchScript(texts[..|texts| - 1]) + "\n " + texts[|texts| - 1]
  }

  /** The batch script has one line per step, each indented by a space, after an
      empty first line. */
  lemma {:induction false} BatchScriptLines(texts: seq<string>)
    requires forall k :: 0 <= k < |texts| ==> '\n' !in texts[k]
    ensures |Split(BatchScript(texts))| == |texts| + 1
    ensures Split(BatchScript(texts))[0] == ""
    ensures forall k :: 0 <= k < |texts| ==> Split(BatchScript(texts))[k + 1] == " " + texts[k]
  {
    if |texts| == 0 {
      SplitNoNewline("");
    } else {
      var init := texts[..|texts| - 1];
      var last := texts[|texts| - 1];
      BatchScriptLines(init);
      assert '\n' !in " " + last;
      AppendedLineIsSplitPiece(BatchScript(init), " " + last);
      assert BatchScript(texts) == BatchScript(init) + "\n" + (" " + last);
    }
  }

  /** A batch of string steps, none of them spanning lines: line k + 1 of the
      batch script is step k itself, indented by a space. */
  lemma StringStepsBatchLines(steps: seq<Value>)
    requires forall k :: 0 <= k < |steps| ==> steps[k].Str? && '\n' !in steps[k].s
    ensures |Split(BatchScript(StepTexts(steps)))| == |steps| + 1
    ensures Split(BatchScript(StepTexts(steps)))[0] == ""
    ensures forall k :: 0 <= k < |steps| ==> Split(BatchScript(StepTexts(steps)))[k + 1] == " " + steps[k].s
  {
    BatchScriptLines(StepTexts(steps));
  }

  /** The shell; `trace` lists the scripts it has run. */
  class Shell {
    const behaviour: map<string, Behaviour>
    var trace: seq<string>

    constructor (behaviour: map<string, Behaviour>)
      ensures this.behaviour == behaviour && trace == []
    {
      this.behaviour := behaviour;
      trace := [];
    }

    method Run(script: string, timeout: Option<int>) returns (o: RunOutcome)
      modifies this
      ensures o == Respond(behaviour, script, timeout)
      ensures trace == old(trace) + [script]
    {
      o := Respond(behaviour, script, timeout);
      trace := trace + [script];
    }
  }

  /** _run_script(script) for a given timeout. */
  method RunScript(shell: Shell, script: string, timeout: Option<int>) returns (res: StepResult)
    modifies shell
    ensures res == Shape(script, Respond(shell.behaviour, script, timeout))
    ensures shell.trace == old(shell.trace) + [script]
  {
    var o := shell.Run(script, timeout);
    res := Shape(script, o);
  }

  /** What one execute() run does: the results it records, the scripts it
      invokes, and the failure it raises, if any. */
  datatype RunSummary = RunSummary(results: seq<StepResult>, invoked: seq<string>, failed: Option<Error>)

  /** The ExecutionFailure raised when `script` exits with `code`. */
  function StepFailed(script: string, code: int): (e: Error)
    ensures e.kind == ExecutionFailure
  {
    Error(ExecutionFailure, "Step " + script + " exited with code " + IntText(code), None)
  }

  /** The result of running one step. */
  function StepRun(script: string, timeout: Option<int>, behaviour: map<string, Behaviour>): StepResult {
    Shape(script, Respond(behaviour, script, timeout))
  }

  /** Sequential mode from step i on. */
  function SequentialRun(texts: seq<string>, i: nat, timeout: Option<int>, behaviour: map<string, Behaviour>): RunSummary
    decreases |texts| - i
  {
    if i >= |texts| then RunSummary([], [], None)
    else
      var res := StepRun(texts[i], timeout, behaviour);
      if res.returnCode != 0 then
        RunSummary([res], [texts[i], OnFailureScript], Some(StepFailed(texts[i], res.returnCode)))
      else
        var rest := SequentialRun(texts, i + 1, timeout, behaviour);
        RunSummary([res] + rest.results, [texts[i]] + rest.invoked, rest.failed)
  }

  /** The leading steps that are strings, as scripts: sequential mode hands each
      step to the shell as it is, and the first one that is not a string stops it. */
  function StringPrefix(steps: seq<Value>): (r: seq<string>)
    ensures |r| <= |steps|
    ensures forall k :: 0 <= k < |r| ==> steps[k] == Str(r[k])
    ensures |r| < |steps| ==> !steps[|r|].Str?
  {
    if |steps| == 0 || !steps[0].Str? then []
    else [steps[0].s] + StringPrefix(steps[1..])
  }

  /** Python's name for the type of a value. */
  function PyTypeName(v: Value): string {
    match v
    case Null => "NoneType"
    case Bool(_) => "bool"
    case Int(_) => "int"
    case Str(_) => "str"
    case List(_) => "list"
    case Dict(_) => "dict"
  }

  /** The TypeError `subprocess.run([step], shell=True)` raises for a step that
      is not a string, before any process starts. */
  function NotAScript(v: Value): (e: Error)
    ensures e.kind == TypeError
  {
    TypeErr("expected str, bytes or os.PathLike object, not " + PyTypeName(v))
  }

  /** Sequential mode over the configured steps: the string steps run as in
      SequentialRun, and reaching a step that is not a string raises its
      TypeError with no result recorded for it and no failure script. */
  function SequentialMode(steps: seq<Value>, timeout: Option<int>, behaviour: map<string, Behaviour>): RunSummary {
    var texts := StringPrefix(steps);
    var run := SequentialRun(texts, 0, timeout, behaviour);
    if run.failed.None? && |texts| < |steps| then run.(failed := Some(NotAScript(steps[|texts|])))
    else run
  }

  /** Batch mode: all steps as one script. */
  function BatchRun(texts: seq<string>, timeout: Option<int>, behaviour: map<string, Behaviour>): RunSummary {
    var script := BatchScript(texts);
    var res := StepRun(script, timeout, behaviour);
    if res.returnCode != 0 then
      RunSummary([res], [script, OnFailureScript], Some(StepFailed("\n" + script, res.returnCode)))
    else RunSummary([res], [script], None)
  }

  /** Sequential mode runs the steps in order: result k is step i + k's. */
  lemma {:induction false} SequentialRunSteps(texts: seq<string>, i: nat, timeout: Option<int>,
                                              behaviour: map<string, Behaviour>)
    requires i <= |texts|
    ensures var r := SequentialRun(texts, i, timeout, behaviour);
      && |r.results| <= |texts| - i
      && forall k :: 0 <= k < |r.results| ==> r.results[k] == StepRun(texts[i + k], timeout, behaviour)
    decreases |texts| - i
  {
    if i < |texts| {
      var res := StepRun(texts[i], timeout, behaviour);
      if res.returnCode == 0 {
        SequentialRunSteps(texts, i + 1, timeout, behaviour);
        var rest := SequentialRun(texts, i + 1, timeout, behaviour).results;
        assert SequentialRun(texts, i, timeout, behaviour).results == [res] + rest;
        forall k | 0 <= k < 1 + |rest|
          ensures ([res] + rest)[k] == StepRun(texts[i + k], timeout, behaviour)
        {
          if k > 0 {
            assert ([res] + rest)[k] == rest[k - 1];
          }
        }
      }
    }
  }

  /** It stops at the first step that does not exit with 0 (a timeout included)
      and raises an ExecutionFailure exactly then; otherwise every step runs. */
  lemma {:induction false} SequentialRunCodes(texts: seq<string>, i: nat, timeout: Option<int>,
                                              behaviour: map<string, Behaviour>)
    requires i <= |texts|
    ensures var r := SequentialRun(texts, i, timeout, behaviour);
      && (forall k :: 0 <= k < |r.results| - 1 ==> r.results[k].returnCode == 0)
      && (r.failed.Some? <==> |r.results| > 0 && r.results[|r.results| - 1].returnCode != 0)
      && (r.failed.None? ==> |r.results| == |texts| - i)
      && (r.failed.Some? ==> r.failed.value.kind == ExecutionFailure)
    decreases |texts| - i
  {
    if i < |texts| && StepRun(texts[i], timeout, behaviour).returnCode == 0 {
      SequentialRunCodes(texts, i + 1, timeout, behaviour);
      var rest := SequentialRun(texts, i + 1, timeout, behaviour);
      var r := SequentialRun(texts, i, timeout, behaviour);
      assert r.results == [r.results[0]] + rest.results;
    }
  }

  /** The scripts invoked are the steps run, then the failure script if one failed. */
  lemma {:induction false} SequentialRunInvoked(texts: seq<string>, i: nat, timeout: Option<int>,
                                                behaviour: map<string, Behaviour>)
    requires i <= |texts|
    ensures var r := SequentialRun(texts, i, timeout, behaviour);
      && |r.results| <= |texts| - i
      && r.invoked == texts[i..i + |r.results|] + (if r.failed.Some? then [OnFailureScript] else [])
    decreases |texts| - i
  {
    if i < |texts| {
      var res := StepRun(texts[i], timeout, behaviour);
      if res.returnCode == 0 {
        SequentialRunInvoked(texts, i + 1, timeout, behaviour);
        var rest := SequentialRun(texts, i + 1, timeout, behaviour);
        var r := SequentialRun(texts, i, timeout, behaviour);
        assert r == RunSummary([res] + rest.results, [texts[i]] + rest.invoked, rest.failed);
        assert texts[i..i + |r.results|] == [texts[i]] + texts[i + 1..i + 1 + |rest.results|];
      } else {
        assert texts[i..i + 1] == [texts[i]];
      }
    }
  }

  /** A step that runs longer than the timeout is the last step run, it is
      recorded with code 130, and the run fails. */
  lemma TimeoutEndsRun(texts: seq<string>, timeout: Option<int>, behaviour: map<string, Behaviour>, k: nat)
    requires k < |SequentialRun(texts, 0, timeout, behaviour).results|
    requires k < |texts| && texts[k] in behaviour
    requires timeout.Some? && behaviour[texts[k]].seconds > timeout.value
    ensures |SequentialRun(texts, 0, timeout, behaviour).results| == k + 1
    ensures SequentialRun(texts, 0, timeout, behaviour).failed.Some?
    ensures SequentialRun(texts, 0, timeout, behaviour).results[k].returnCode == TimeoutReturnCode
  {
    SequentialRunSteps(texts, 0, timeout, behaviour);
    SequentialRunCodes(texts, 0, timeout, behaviour);
    var r := SequentialRun(texts, 0, timeout, behaviour);
    assert r.results[k] == StepRun(texts[0 + k], timeout, behaviour);
    assert Respond(behaviour, texts[k], timeout).TimedOut?;
    assert r.results[k].returnCode == TimeoutReturnCode;
    assert !(k < |r.results| - 1);
  }

  /** When every step exits with 0 in time, every step runs and nothing fails. */
  lemma {:induction false} AllStepsSucceed(texts: seq<string>, i: nat, timeout: Option<int>,
                                           behaviour: map<string, Behaviour>)
    requires i <= |texts|
    requires forall k :: i <= k < |texts| ==> StepRun(texts[k], timeout, behaviour).returnCode == 0
    ensures SequentialRun(texts, i, timeout, behaviour).failed.None?
    ensures SequentialRun(texts, i, timeout, behaviour).invoked == texts[i..]
    decreases |texts| - i
  {
    if i < |texts| {
      AllStepsSucceed(texts, i + 1, timeout, behaviour);
      assert texts[i..] == [texts[i]] + texts[i + 1..];
    }
  }

  /** Batch mode records exactly one result, for the whole script. */
  lemma BatchRunShape(texts: seq<string>, timeout: Option<int>, behaviour: map<string, Behaviour>)
    ensures var r := BatchRun(texts, timeout, behaviour);
      && |r.results| == 1
      && r.results[0].step == BatchScript(texts)
      && (r.failed.Some? <==> r.results[0].returnCode != 0)
      && (r.failed.Some? ==> r.failed.value.kind == ExecutionFailure)
      && r.invoked == [BatchScript(texts)] + (if r.failed.Some? then [OnFailureScript] else [])
  {
  }

  /** When every step is a string, sequential mode is the run of those scripts. */
  lemma StringStepsRunAsScripts(steps: seq<string>, timeout: Option<int>, behaviour: map<string, Behaviour>)
    ensures var values := seq(|steps|, k requires 0 <= k < |steps| => Str(steps[k]));
      SequentialMode(values, timeout, behaviour) == SequentialRun(steps, 0, timeout, behaviour)
  {
    var values := seq(|steps|, k requires 0 <= k < |steps| => Str(steps[k]));
    var texts := StringPrefix(values);
    assert |texts| == |steps|;
    assert texts == steps;
  }

  /** A step that is not a string, after string steps that all exit with 0,
      raises TypeError: the steps before it are run and recorded, it records
      nothing, and the failure script does not run. */
  lemma NonStringStepRaises(steps: seq<Value>, k: nat, timeout: Option<int>, behaviour: map<string, Behaviour>)
    requires k < |steps| && !steps[k].Str?
    requires forall j :: 0 <= j < k ==> steps[j].Str? && StepRun(steps[j].s, timeout, behaviour).returnCode == 0
    ensures var r := SequentialMode(steps, timeout, behaviour);
      && r.failed == Some(NotAScript(steps[k]))
      && |r.results| == k
      && |r.invoked| == k
      && forall j :: 0 <= j < k ==> r.invoked[j] == steps[j].s
  {
    var texts := StringPrefix(steps);
    assert |texts| == k;
    forall j | 0 <= j < |texts|
      ensures StepRun(texts[j], timeout, behaviour).returnCode == 0
    {
      assert steps[j] == Str(texts[j]);
    }
    AllStepsSucceed(texts, 0, timeout, behaviour);
    SequentialRunCodes(texts, 0, timeout, behaviour);
    forall j | 0 <= j < k
      ensures SequentialRun(texts, 0, timeout, behaviour).invoked[j] == steps[j].s
    {
      assert steps[j] == Str(texts[j]);
    }
  }

  /** After i steps of a run whose whole summary is `total`: `recorded` holds the
      results so far, `trace` is `trace0` followed by the steps run, and the rest
      of the run starts at step i. */
  ghost predicate RunSoFar(texts: seq<string>, i: nat, timeout: Option<int>, behaviour: map<string, Behaviour>,
                           trace0: seq<string>, trace: seq<string>, recorded: seq<StepResult>, total: RunSummary)
    requires i <= |texts|
  {
    var rest := SequentialRun(texts, i, timeout, behaviour);
    && trace == trace0 + texts[..i]
    && total.results == recorded + rest.results
    && total.invoked == texts[..i] + rest.invoked
    && total.failed == rest.failed
  }

  /** One successful step moves the run on by one step. */
  lemma SequentialRunAdvance(texts: seq<string>, i: nat, timeout: Option<int>, behaviour: map<string, Behaviour>,
                             trace0: seq<string>, trace: seq<string>, recorded: seq<StepResult>, total: RunSummary,
                             res: StepResult)
    requires i < |texts|
    requires res == StepRun(texts[i], timeout, behaviour) && res.returnCode == 0
    requires RunSoFar(texts, i, timeout, behaviour, trace0, trace, recorded, total)
    ensures RunSoFar(texts, i + 1, timeout, behaviour, trace0, trace + [texts[i]], recorded + [res], total)
  {
    var next := SequentialRun(texts, i + 1, timeout, behaviour);
    assert texts[..i + 1] == texts[..i] + [texts[i]];
    assert trace + [texts[i]] == trace0 + texts[..i + 1];
    assert recorded + ([res] + next.results) == (recorded + [res]) + next.results;
    assert texts[..i] + ([texts[i]] + next.invoked) == texts[..i + 1] + next.invoked;
  }

  /** A failing step ends the run with the failure script. */
  lemma SequentialRunStops(texts: seq<string>, i: nat, timeout: Option<int>, behaviour: map<string, Behaviour>,
                           trace0: seq<string>, trace: seq<string>, recorded: seq<StepResult>, total: RunSummary,
                           res: StepResult)
    requires i < |texts|
    requires res == StepRun(texts[i], timeout, behaviour) && res.returnCode != 0
    requires RunSoFar(texts, i, timeout, behaviour, trace0, trace, recorded, total)
    ensures total.results == recorded + [res]
    ensures trace + [texts[i]] + [OnFailureScript] == trace0 + total.invoked
    ensures total.failed == Some(StepFailed(texts[i], res.returnCode))
  {
    assert trace + [texts[i]] + [OnFailureScript] == trace0 + (texts[..i] + [texts[i], OnFailureScript]);
  }

  /** A run that reached the end ran every step. */
  lemma SequentialRunEnds(texts: seq<string>, timeout: Option<int>, behaviour: map<string, Behaviour>,
                          trace0: seq<string>, trace: seq<string>, recorded: seq<StepResult>, total: RunSummary)
    requires RunSoFar(texts, |texts|, timeout, behaviour, trace0, trace, recorded, total)
    ensures total.results == recorded
    ensures trace == trace0 + total.invoked
    ensures total.failed.None?
  {
    assert texts[..|texts|] == texts;
    assert recorded + [] == recorded;
    assert texts + [] == texts;
  }

  /** The loop of execute() in sequential mode; `recorded` is what it appends
      to the executor's results. */
  method RunSteps(shell: Shell, steps: seq<Value>, timeout: Option<int>)
      returns (recorded: seq<StepResult>, o: Outcome<Error>)
    modifies shell
    ensures var sum := SequentialMode(steps, timeout, shell.behaviour);
      && recorded == sum.results
      && shell.trace == old(shell.trace) + sum.invoked
      && o == (if sum.failed.Some? then Fail(sum.failed.value) else Pass)
  {
    ghost var texts := StringPrefix(steps);
    ghost var behaviour := shell.behaviour;
    ghost var trace0 := shell.trace;
    ghost var total := SequentialRun(texts, 0, timeout, behaviour);
    recorded := [];
    assert texts[..0] + total.invoked == total.invoked && trace0 + texts[..0] == trace0;
    var i := 0;
    while i < |steps|
      invariant 0 <= i <= |texts|
      invariant RunSoFar(texts, i, timeout, behaviour, trace0, shell.trace, recorded, total)
    {
      if !steps[i].Str? {
        assert i == |texts|;
        ModeAtNonString(steps, timeout, behaviour, trace0, shell.trace, recorded);
        return recorded, Fail(NotAScript(steps[i]));
      }
      var step := steps[i].s;
      assert i < |texts| && texts[i] == step;
      ghost var trace := shell.trace;
      var res := RunScript(shell, step, timeout);
      if res.returnCode != 0 {
        var _ := RunScript(shell, OnFailureScript, timeout);
        ModeAtFailure(steps, i, timeout, behaviour, trace0, trace, recorded, res);
        return recorded + [res], Fail(StepFailed(step, res.returnCode));
      }
      SequentialRunAdvance(texts, i, timeout, behaviour, trace0, trace, recorded, total, res);
      recorded := recorded + [res];
      i := i + 1;
    }
    ModeAtEnd(steps, timeout, behaviour, trace0, shell.trace, recorded);
    o := Pass;
  }

  /** RunSteps reaching a step that is not a string. */
  lemma ModeAtNonString(steps: seq<Value>, timeout: Option<int>, behaviour: map<string, Behaviour>,
                        trace0: seq<string>, trace: seq<string>, recorded: seq<StepResult>)
    requires |StringPrefix(steps)| < |steps|
    requires var texts := StringPrefix(steps);
      RunSoFar(texts, |texts|, timeout, behaviour, trace0, trace, recorded, SequentialRun(texts, 0, timeout, behaviour))
    ensures var sum := SequentialMode(steps, timeout, behaviour);
      && sum.results == recorded && trace == trace0 + sum.invoked
      && sum.failed == Some(NotAScript(steps[|StringPrefix(steps)|]))
  {
    var texts := StringPrefix(steps);
    SequentialRunEnds(texts, timeout, behaviour, trace0, trace, recorded, SequentialRun(texts, 0, timeout, behaviour));
  }

  /** RunSteps stopping at a failing string step. */
  lemma ModeAtFailure(steps: seq<Value>, i: nat, timeout: Option<int>, behaviour: map<string, Behaviour>,
                      trace0: seq<string>, trace: seq<string>, recorded: seq<StepResult>, res: StepResult)
    requires i < |StringPrefix(steps)|
    requires res == StepRun(StringPrefix(steps)[i], timeout, behaviour) && res.returnCode != 0
    requires var texts := StringPrefix(steps);
      RunSoFar(texts, i, timeout, behaviour, trace0, trace, recorded, SequentialRun(texts, 0, timeout, behaviour))
    ensures var sum := SequentialMode(steps, timeout, behaviour);
      && sum.results == recorded + [res]
      && trace + [StringPrefix(steps)[i]] + [OnFailureScript] == trace0 + sum.invoked
      && sum.failed == Some(StepFailed(StringPrefix(steps)[i], res.returnCode))
  {
    var texts := StringPrefix(steps);
    SequentialRunStops(texts, i, timeout, behaviour, trace0, trace, recorded, SequentialRun(texts, 0, timeout, behaviour), res);
  }

  /** RunSteps running every step. */
  lemma ModeAtEnd(steps: seq<Value>, timeout: Option<int>, behaviour: map<string, Behaviour>,
                  trace0: seq<string>, trace: seq<string>, recorded: seq<StepResult>)
    requires |StringPrefix(steps)| == |steps|
    requires var texts := StringPrefix(steps);
      RunSoFar(texts, |texts|, timeout, behaviour, trace0, trace, recorded, SequentialRun(texts, 0, timeout, behaviour))
    ensures var sum := SequentialMode(steps, timeout, behaviour);
      && sum.results == recorded && trace == trace0 + sum.invoked && sum.failed.None?
  {
    var texts := StringPrefix(steps);
    SequentialRunEnds(texts, timeout, behaviour, trace0, trace, recorded, SequentialRun(texts, 0, timeout, behaviour));
  }

  /** The executor's fields. */
  datatype ExecutorState = ExecutorState(config: Option<Config>, steps: Option<seq<Value>>, batch: bool,
                                         timeout: Option<int>, results: Option<seq<StepResult>>)

  const Initial := ExecutorState(None, None, false, None, None)

  datatype ExecutorStep = ExecutorStep(state: ExecutorState, outcome: Outcome<Error>)

  /** configure(config) as a state transition; a raised error leaves the fields
      assigned before it. */
  function ExecutorConfigureEffect(s: ExecutorState, config: Config): ExecutorStep {
    var s1 := s.(config := Some(config));
    match GetOrDefault(config, StepsKey, Null, Some(ListKind))
    case Err(e) => ExecutorStep(s1, Fail(e))
    case Ok(sv) =>
      if !sv.List? then
        ExecutorStep(s1.(steps := None), Fail(ConfigErr("No steps specified to execute")))
      else
        var s2 := s1.(steps := Some(sv.items));
        match GetOrDefault(config, BatchKey, Bool(false), Some(BoolKind))
        case Err(e) => ExecutorStep(s2, Fail(e))
        case Ok(bv) =>
          var s3 := s2.(batch := bv.Bool? && bv.b);
          match GetOrDefault(config, TimeoutKey, Null, Some(IntKind))
          case Err(e) => ExecutorStep(s3, Fail(e))
          case Ok(tv) =>
            ExecutorStep(s3.(timeout := if tv.Int? then Some(tv.i) else None, results := Some([])), Pass)
  }

  /** configure succeeds exactly for a list of steps, an optional boolean batch
      and an optional integer timeout; every failure is a ConfigError. */
  lemma ExecutorConfigureMeaning(s: ExecutorState, config: Config)
    ensures var step := ExecutorConfigureEffect(s, config);
      && (step.outcome.Pass? <==>
            && StepsKey in config && config[StepsKey].List?
            && (BatchKey !in config || config[BatchKey].Bool?)
            && (TimeoutKey !in config || config[TimeoutKey].Int?))
      && (step.outcome.Fail? ==> step.outcome.error.kind == ConfigError)
      && step.state.config == Some(config)
      && (step.outcome.Pass? ==>
            && step.state.steps == Some(config[StepsKey].items)
            && step.state.batch == (BatchKey in config && config[BatchKey].b)
            && step.state.timeout == (if TimeoutKey in config then Some(config[TimeoutKey].i) else None)
            && step.state.results == Some([]))
  {
  }

  /** execute() as a function of the configured fields and the shell. */
  function ExecuteEffect(s: ExecutorState, behaviour: map<string, Behaviour>): RunSummary {
    if s.steps.None? then RunSummary([], [], None)
    else if s.batch then BatchRun(StepTexts(s.steps.value), s.timeout, behaviour)
    else SequentialMode(s.steps.value, s.timeout, behaviour)
  }

  class Executor {
    var config: Option<Config>
    var steps: Option<seq<Value>>
    var batch: bool
    var timeout: Option<int>
    var results: Option<seq<StepResult>>

    function State(): ExecutorState
      reads this
    {
      ExecutorState(config, steps, batch, timeout, results)
    }

    constructor ()
      ensures State() == Initial
    {
      config := None;
      steps := None;
      batch := false;
      timeout := None;
      results := None;
    }

    /** configure(config) */
    method Configure(config: Config) returns (o: Outcome<Error>)
      modifies this
      ensures State() == ExecutorConfigureEffect(old(State()), config).state
      ensures o == ExecutorConfigureEffect(old(State()), config).outcome
    {
      this.config := Some(config);
      var sv := GetOrDefault(config, StepsKey, Null, Some(ListKind));
      if sv.Err? {
        return Fail(sv.error);
      }
      if !sv.value.List? {
        steps := None;
        return Fail(ConfigErr("No steps specified to execute"));
      }
      steps := Some(sv.value.items);
      var bv := GetOrDefault(config, BatchKey, Bool(false), Some(BoolKind));
      if bv.Err? {
        return Fail(bv.error);
      }
      batch := bv.value.Bool? && bv.value.b;
      var tv := GetOrDefault(config, TimeoutKey, Null, Some(IntKind));
      if tv.Err? {
        return Fail(tv.error);
      }
      timeout := if tv.value.Int? then Some(tv.value.i) else None;
      results := Some([]);
      o := Pass;
    }

    /** get_results() */
    function GetResults(): Option<seq<StepResult>>
      reads this
    {
      results
    }

    /** execute(): every result is recorded before a failure is raised. */
    method Execute(shell: Shell) returns (o: Outcome<Error>)
      requires steps.Some? ==> results.Some?
      modifies this`results, shell
      ensures var sum := ExecuteEffect(old(State()), shell.behaviour);
        && results == (if steps.Some? then Some(old(results).value + sum.results) else old(results))
        && shell.trace == old(shell.trace) + sum.invoked
        && o == (if sum.failed.Some? then Fail(sum.failed.value) else Pass)
    {
      if steps.None? {
        return Pass;
      }
      if batch {
        var script := BatchScript(StepTexts(steps.value));
        var res := RunScript(shell, script, timeout);
        results := Some(results.value + [res]);
        if res.returnCode != 0 {
          var _ := RunScript(shell, OnFailureScript, timeout);
          return Fail(StepFailed("\n" + script, res.returnCode));
        }
        return Pass;
      }
      var recorded;
      recorded, o := RunSteps(shell, steps.value, timeout);
      results := Some(results.value + recorded);
    }
  }

  /** configure, execute, then get_results on a new executor: the results are
      exactly those of the one run, the failing step's included; `executed` is
      None when a failed configure stops the sequence before execute. */
  method RunAndGetResults(config: Config, shell: Shell)
      returns (configured: Outcome<Error>, executed: Option<Outcome<Error>>, results: Option<seq<StepResult>>)
    modifies shell
    ensures configured == ExecutorConfigureEffect(Initial, config).outcome
    ensures configured.Fail? ==> executed == None && results == None && shell.trace == old(shell.trace)
    ensures configured.Pass? ==>
              var sum := ExecuteEffect(ExecutorConfigureEffect(Initial, config).state, shell.behaviour);
              && results == Some(sum.results)
              && shell.trace == old(shell.trace) + sum.invoked
              && executed == Some(if sum.failed.Some? then Fail(sum.failed.value) else Pass)
  {
    var e := new Executor();
    configured := e.Configure(config);
    if configured.Fail? {
      return configured, None, e.GetResults();
    }
    ghost var sum := ExecuteEffect(e.State(), shell.behaviour);
    var o := e.Execute(shell);
    executed := Some(o);
    assert [] + sum.results == sum.results;
    results := e.GetResults();
  }
}
