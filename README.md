# plumber change detection, step execution and checkpoint stores in Dafny

plumber runs "pipes": shell steps that run when a git repository has changed
since the revision recorded at the previous run (the checkpoint). This project
models the parts of plumber that decide and do that work:

- the local-diff condition of `plumber/operators.py`:
  - configuration validation;
  - the active-branch gate;
  - the target-branch checkout, with a guaranteed restore;
  - the history walk back to the checkpoint commit;
  - the "any" mode and the "expression" mode over the configured diff rules;
  - memoization;
- the step executor of `plumber/operators.py`:
  - sequential and batch runs;
  - timeouts (exit code 130);
  - the failure script;
  - the results recorded before a failure is raised;
- the older local-diff condition and the shell-condition stub of `plumber/core.py`;
- the checkpoint stores and the store factory of `plumber/io.py`:
  - the YAML file store;
  - the Kubernetes config-map store, with its replace-or-create save;
  - `create_checkpoint_store` and `initialize_default_checkpoint_store`;
  - the `${env.NAME}` substitution;
- the configuration lookup `get_or_default` and the error kinds of
  `plumber/common.py`.

Layout:

- `wrappers.dfy`: Option, Result and Outcome.
- `common.dfy`:
  - configuration values;
  - error kinds;
  - the typed lookup;
  - Python's `in`, `[]` and iteration on configuration values;
  - the abstract expression evaluator;
  - text helpers.
- `git.dfy`: the repository as a class, whose checked-out branch `checkout`
  changes. It records every checkout attempt and every history walk as an event.
- `rules.dfy`: the newer detector's computations as pure functions, with
  lemmas that say what they mean.
- `operators.dfy`: the newer `LocalDiffConditional` and the `Executor`, as
  classes whose methods are proved equal to those functions.
- `core.dfy`: the older `LocalDiffConditional` and `ShellConditional`.
- `io.dfy`: the stores, the factory and the substitution.

Collaborators the model does not interpret are parameters:

- `re.match` is a function `Matcher = (string, string) -> bool`.
- `evaluate_expression` is an `Evaluator`. It gives the identifiers an
  expression mentions (None when the expression does not parse) and its value
  under a binding.
- The older detector's `exec`/`eval` is an `ExpressionMode` function.
- The shell is a map from script to behaviour: exit code, output, run time and
  the output captured when a timeout stops it. A script the map does not know
  exits with 127.
- A file system is a map from path to document. The Kubernetes API is a map from
  (namespace, name) to config-map data, plus two optional failure statuses: one
  that every call raises, and one that only the replace and create calls raise,
  so a read can succeed and the write after it fail.

A few behaviours of the code that are easy to overlook:

- The executor accepts an empty `steps` list, and any integer timeout, negative
  ones included.
- An expression naming an id that no rule declares raises the evaluator's
  NameError, not a ConfigError.
- The older detector does not memoize. Its checkpoint is the head at the time
  `create_checkpoint` is called.
- The Kubernetes store reads back only the placeholder file of its config map,
  which is all `save_data` writes. A config map without that file raises
  KeyError in `get_data` (plumber/io.py:121), and so it does in the model. The
  mocked config map of tests/test_io.py:108-121 holds only `name`, and the test
  expects that data back; the model follows the code.

## Model

| member | source | states |
|---|---|---|
| Common.ConfigErr | plumber/common.py:8-15 | a ConfigError is a PlumberError kind with a message and no inner error |
| Common.IOErr | plumber/common.py:8-19 | an IOError is a PlumberError kind carrying a message and the inner error |
| Common.GetOrDefaultAsWritten | plumber/common.py:53-57 | as written, a present key yields the key's own name and an absent key yields the default |
| Common.GetOrDefault | plumber/common.py:53-57 | a present key yields its value and an absent key the default; with a type, it raises ConfigError exactly when the present value has another type, and a returned present value has the type |
| Common.GetOrDefaultCounterexample | plumber/common.py:54-55 | for `{'key': 'value'}` the definition as written yields `'key'` where the callers' lookup yields `'value'` |
| Common.GetOrDefaultAgreement | plumber/common.py:53-57 | the two definitions agree exactly when the key is absent or stores its own name |
| Common.OptionalStr | plumber/operators.py:46 | `get_or_default(config, X, None, str)` succeeds exactly when X is absent or a string, and then gives the string or None |
| Common.PyContains | plumber/core.py:30-36 | `in` on a mapping tests its keys; it raises exactly when the container is not a mapping, string or list |
| Common.PyIndex | plumber/core.py:31-36 | `c[k]` succeeds exactly on a mapping holding k, and yields the stored value |
| Common.PyIter | plumber/core.py:95-96 | iterating a list yields its items; only lists and strings can be iterated |
| Common.EvaluateExpression | plumber/operators.py:145 | raises SyntaxError when the expression does not parse and NameError when it names an unbound variable; it succeeds exactly when every named variable is bound, with the evaluator's value |
| Common.Lower | plumber/io.py:161 | `lower()` adds 32 to each ASCII capital and leaves every other character, keeping the length; the result holds no capital letter (Python's full Unicode case mapping is not modelled, see Left out) |
| Common.LowerIdempotent | plumber/io.py:161 | lowering an already lowered type changes nothing |
| Common.Split | plumber/operators.py:110-112 | `split('\n')` gives at least one piece, and no piece holds a newline |
| Common.JoinSplit | plumber/operators.py:110-112 | joining the pieces of `split('\n')` with newlines gives the text back |
| Common.SortedKeys | plumber/operators.py:192 | the keys of a mapping, each once, in ascending order (the order the model uses for a mapping's entries) |
| Common.Repr | plumber/operators.py:192 | `repr()` of a list is bracketed, of a mapping braced, of a string quoted with the same quote at both ends |
| Common.ScalarStrExamples | plumber/operators.py:192 | `str()` of a string is the string, of an int its decimal text, of None `None` |
| Common.ListStrExamples | plumber/operators.py:192 | `str([1, 2])` is `[1, 2]` and `str(['a', True])` is `['a', True]`: a list shows the `repr()` of its items |
| Common.DictStrExamples | plumber/operators.py:192 | `str({'a': 1})` is `{'a': 1}`; nested empty containers show as `[]` and `{}` |
| Common.QuoteExample | plumber/operators.py:192 | `repr()` of a string holding a single quote and no double quote uses double quotes |
| Common.EscapeExample | plumber/operators.py:192 | `repr()` writes a newline inside a string as `\n` |
| Git.Repository.Checkout | plumber/operators.py:62-65 | records the attempt; an unknown branch fails with a git error and leaves the checked-out branch as it was; a known branch becomes the checked-out one |
| Git.Repository.IterCommits | plumber/operators.py:80-81 | yields the checked-out branch's log and records one history walk |
| DiffRules.UnchangedBlobHasNoContentDiff | plumber/operators.py:109-116 | a file whose two sides are equal never has a content diff |
| DiffRules.HasContentDiff | plumber/operators.py:109-116 | a content diff is a line of the old side, missing from the new side, that the pattern matches; its meaning is given by DiffRules.UnchangedBlobHasNoContentDiff and DiffRules.AppendedMatchingLineIsContentDiff |
| DiffRules.AppendedMatchingLineIsContentDiff | plumber/operators.py:109-116 | a matching line appended on the head side is a content diff |
| DiffRules.FirstMatchFrom | plumber/operators.py:84-86 | the index of the first commit whose id equals the checkpoint, or the log length when there is none |
| DiffRules.CollectSpan | plumber/operators.py:78-90 | the collected diffs are exactly those of the commits up to and including the first checkpoint match, in log order |
| DiffRules.CheckpointNotFoundCollectsAll | plumber/operators.py:87-90 | when the checkpoint commit is not in the log, the diffs of every commit are collected (no failure) |
| DiffRules.DiffsSince | plumber/operators.py:80-84 | an empty log gives no diffs and no lookup; a mapping checkpoint with `commit` gives the diffs up to the checkpoint commit; any other checkpoint raises TypeError once the log has a commit |
| DiffRules.DiffsFromCurrent | plumber/operators.py:75-94 | a mapping checkpoint without `commit` gives None, one with it the diffs up to that commit; None, a boolean or an int checkpoint raises TypeError |
| DiffRules.StringCheckpoint | plumber/operators.py:76-84 | a string checkpoint is searched for the text `commit`: without it the result is None; with it, TypeError as soon as the log has a commit |
| DiffRules.RuleScanMeaning | plumber/operators.py:154-166 | for a well-formed rule the inner loop is true exactly when the rule hits some changed file: its path pattern matches, and the content pattern too when the rule has one |
| DiffRules.AnyScanMeaning | plumber/operators.py:147-167 | any mode on well-formed rules is true exactly when some rule hits some changed file |
| DiffRules.RuleWithoutPathNeverMatches | plumber/operators.py:155-156 | a rule without `path` never matches |
| DiffRules.NonDictRuleRaises | plumber/operators.py:149-153 | reaching a rule that is not a mapping raises ConfigError |
| DiffRules.FirstHitAnswersTrue | plumber/operators.py:147-166 | once a well-formed rule hits some changed file, and none of the well-formed rules before it does, any mode answers True whatever the later rules are, malformed ones included |
| DiffRules.DeclaredIdsMeaning | plumber/operators.py:125-128 | the declared variables are exactly the ids of rules that have an id and a path |
| DiffRules.ExprRuleScanMeaning | plumber/operators.py:129-142 | the inner loop binds the id, when some diff matches the path, to its old truth or whether some diff hits; otherwise it leaves the bindings alone |
| DiffRules.ExprRuleMeaning | plumber/operators.py:121-144 | one well-formed rule with an id and a path binds its id to its old truth or whether the rule hits some changed file |
| DiffRules.ExprScanMeaning | plumber/operators.py:118-144 | the outer loop ends with the old bindings, plus every declared id bound to whether some rule declaring it hits |
| DiffRules.ExpressionBindings | plumber/operators.py:118-145 | expression mode binds one variable per declared id, true exactly when some rule with that id hits some changed file |
| DiffRules.UndeclaredIdRaisesNameError | plumber/operators.py:145 | an expression naming an id that no rule declares raises NameError |
| DiffRules.Detect | plumber/operators.py:96-107 | without a checkpoint commit the answer is True, whatever the rules; an error of `commit in checkpoint` or of the walk is raised as it is |
| DiffRules.DetectAnyMode | plumber/operators.py:96-107 | with a mapping checkpoint holding `commit` and well-formed rules, any mode is True exactly when some rule hits a diff up to the checkpoint commit |
| Operators.ConfigureMeaning | plumber/operators.py:29-46 | configure fails exactly on an invalid configuration (id or diff missing or mistyped, branch or expression mistyped), and then always with ConfigError; on success the fields hold the configured values, the head and the checkpoint, and an absent branch setting keeps its old value |
| Operators.LocalDiffConditional.constructor | plumber/operators.py:18-27 | every field starts as None |
| Operators.LocalDiffConditional.Configure | plumber/operators.py:29-46 | the new fields and outcome are those of the configure transition, the repository is opened only when the lookups before it succeed, and a memoized result is kept |
| Operators.LocalDiffConditional.ConfigureHead | plumber/operators.py:30-37 | the `id` and `diff` lookups and their ConfigErrors |
| Operators.LocalDiffConditional.ConfigureBranches | plumber/operators.py:39-42 | the `branch.active` and `branch.target` lookups, only when `branch` is a mapping |
| Operators.LocalDiffConditional.ConfigureTail | plumber/operators.py:43-46 | opens the repository and records its head and the checkpoint before the expression lookup |
| Operators.LocalDiffConditional.CreateCheckpoint | plumber/operators.py:70-73 | returns `{commit: head}` with the head captured by configure |
| Operators.LocalDiffConditional.Evaluate | plumber/operators.py:48-68 | a memoized result is returned with no repository operation; otherwise the answer is the detection on the gated branch, with exactly the checkouts and walks of the branch gates, and the checked-out branch is the same afterwards |
| Operators.LocalDiffConditional.HasDiff | plumber/operators.py:96-107 | the detection for the checked-out branch: True without a checkpoint commit, a TypeError for a checkpoint `in` cannot search, otherwise expression mode or any mode over the walked diffs; one walk exactly when the checkpoint holds `commit` |
| Operators.LocalDiffConditional.GetDiffsFromCurrent | plumber/operators.py:75-94 | the checkpoint's diffs for the checked-out branch, as DiffRules.DiffsFromCurrent states them; a walk only when the checkpoint holds `commit` |
| Operators.LocalDiffConditional.HasDiffAll | plumber/operators.py:147-167 | any mode over the walked diffs, or the walk's error; one walk |
| Operators.LocalDiffConditional.HasDiffExpression | plumber/operators.py:118-145 | expression mode over the walked diffs, or the walk's error; one walk |
| Operators.LocalDiffConditional.ScanAny | plumber/operators.py:149-166 | the nested loops compute the any-mode scan |
| Operators.LocalDiffConditional.BindVariables | plumber/operators.py:121-144 | the nested loops compute the expression-mode bindings |
| Operators.CollectDiffs | plumber/operators.py:78-90 | the loop gives DiffRules.DiffsSince: the diffs up to and including the checkpoint commit, or the error of `checkpoint['commit']`; it reports whether that commit was found |
| Operators.EvaluateTwice | plumber/operators.py:48-68 | after a successful evaluate, a second one returns the same answer and adds no repository operation to those of the first call |
| Operators.Respond | plumber/operators.py:220-223 | a run times out exactly when a timeout is set and the script runs longer than it |
| Operators.Shape | plumber/operators.py:224-237 | an exit is recorded with its code and output; a timeout is recorded with code 130 (never 0), the partial output, and the timeout message appended to stderr |
| Operators.BatchScriptLines | plumber/operators.py:192 | the batch script is an empty line followed by one space-indented line per step |
| Operators.StepTexts | plumber/operators.py:192 | each step contributes its `str()` to the batch script: a string step is itself, any other step its `repr` (Common.PyStr, Common.ListStrExamples, Common.DictStrExamples) |
| Operators.StringStepsBatchLines | plumber/operators.py:192 | for string steps without newlines, line k + 1 of the batch script is step k indented by one space, after an empty first line |
| Operators.Shell.Run | plumber/operators.py:223 | the outcome is the shell's response, and the script is appended to the trace |
| Operators.RunScript | plumber/operators.py:218-237 | `_run_script` records the shaped outcome of one shell run of the script, under the configured timeout |
| Operators.StepFailed | plumber/operators.py:210-211 | a failing step raises ExecutionFailure |
| Operators.StringPrefix | plumber/operators.py:204-205 | the leading string steps, in order; the step after them, if any, is not a string |
| Operators.NotAScript | plumber/operators.py:218-223 | a step that is not a string raises TypeError from `subprocess.run` |
| Operators.StringStepsRunAsScripts | plumber/operators.py:204-213 | when every step is a string, sequential mode runs exactly those scripts |
| Operators.NonStringStepRaises | plumber/operators.py:204-213 | a non-string step after steps that exit with 0 raises TypeError: the earlier steps are run and recorded, it records nothing, and `touch failed` does not run |
| Operators.SequentialRunSteps | plumber/operators.py:204-206 | sequential mode records the steps' results in step order |
| Operators.SequentialRunCodes | plumber/operators.py:204-213 | every result but the last exited with 0; the run fails exactly when the last recorded step did not, and then with ExecutionFailure; a run that does not fail records every step |
| Operators.SequentialRunInvoked | plumber/operators.py:204-211 | the scripts run are the steps run, then `touch failed` if one failed |
| Operators.TimeoutEndsRun | plumber/operators.py:204-237 | a step that outlives the timeout is the last one run, is recorded with code 130, and fails the run |
| Operators.AllStepsSucceed | plumber/operators.py:204-213 | when every step exits with 0, every step runs and nothing fails |
| Operators.BatchRunShape | plumber/operators.py:191-202 | batch mode records exactly one result, for the whole script, and fails, running `touch failed`, exactly when that result is not 0 |
| Operators.RunSteps | plumber/operators.py:204-213 | the sequential loop records the run's results and runs its scripts as SequentialMode states them: it stops at a failing step with ExecutionFailure, or at a non-string step with TypeError |
| Operators.ExecutorConfigureMeaning | plumber/operators.py:179-187 | configure succeeds exactly for a list of steps, an optional boolean batch and an optional integer timeout; every failure is a ConfigError; on success the fields hold those values and an empty result list |
| Operators.Executor.constructor | plumber/operators.py:172-177 | fields start as None, with batch False |
| Operators.Executor.Configure | plumber/operators.py:179-187 | the new fields and outcome are those of the configure transition |
| Operators.Executor.Execute | plumber/operators.py:189-213 | appends every recorded result, the failing one included, before it reports the failure; runs exactly the run's scripts; batch mode joins the steps' `str()` texts; sequential mode stops at a non-string step with TypeError; does nothing without steps |
| Operators.Executor.GetResults | plumber/operators.py:215-216 | returns the recorded results; Operators.RunAndGetResults states what they are |
| Operators.RunAndGetResults | plumber/operators.py:179-216 | on a new executor, configure, execute and get_results give exactly the results of the one run, the failing step's included; a failed configure leaves no results and runs no execute |
| Core.ConfigureMeaning | plumber/core.py:29-40 | with `branch` absent or a mapping, configure never raises and each field holds the configured value when its key is present, else its old value; a `branch` that cannot be searched raises TypeError |
| Core.WalkedDiffsMeaning | plumber/core.py:60-71 | with a checkpoint holding `commit`, the walk gathers as a set the diffs the newer detector collects |
| Core.WalkedDiffsMembership | plumber/core.py:63-69 | a diff is gathered exactly when it belongs to a commit up to and including the checkpoint commit (to any commit when that commit is not in the log) |
| Core.CollectDiffSet | plumber/core.py:63-69 | the loop computes the walked diff set |
| Core.AddAll | plumber/core.py:66-67 | adding every diff of a commit gives the old set plus those diffs |
| Core.RulePattern | plumber/core.py:97-98 | a mapping rule has a pattern exactly when its `path` is present and a string; a mistyped `path` raises |
| Core.LegacyScanMeaning | plumber/core.py:93-99 | the older any mode never answers False; it answers True exactly when some rule reached in order matches, and None when none do |
| Core.NoDiffsFallsThrough | plumber/core.py:93-99 | with no changed file, no rule is inspected, and the answer is None |
| Core.RawPathCounterexample | plumber/core.py:98 | the rule `mypath/.*` against the changed file `mypath/file1` raises TypeError as written, and matches once the path is decoded |
| Core.RawPathNeverMatches | plumber/core.py:97-99 | as written, no string-path rule can answer True once a file changed; the corrected scan answers whether a changed path matches |
| Core.EvaluateMeaning | plumber/core.py:42-55 | a mismatched active branch answers False with no repository operation; a different target branch is checked out first, and the previous branch is checked out again last; without a checkpoint commit the answer is True |
| Core.LocalDiffConditional.constructor | plumber/core.py:21-27 | every field starts as None |
| Core.LocalDiffConditional.Configure | plumber/core.py:29-40 | the new fields and outcome are those of the configure transition; the repository is set only when configure gets through |
| Core.LocalDiffConditional.ConfigureBranch | plumber/core.py:32-36 | the `branch` membership tests and lookups |
| Core.LocalDiffConditional.CreateCheckpoint | plumber/core.py:57-58 | returns `{commit: head}` with the head at the time of the call |
| Core.LocalDiffConditional.Evaluate | plumber/core.py:42-55 | the answer and the repository operations of the branch gates; the checked-out branch is the same afterwards |
| Core.LocalDiffConditional.HasDiff | plumber/core.py:73-79 | True without a checkpoint commit; otherwise the expression mode or the older any mode over the walked diffs |
| Core.LocalDiffConditional.GetDiffsFromCurrent | plumber/core.py:60-71 | None and no walk without a checkpoint commit; otherwise one walk and the walked diff set |
| Core.LocalDiffConditional.HasDiffAll | plumber/core.py:93-99 | the loops compute the older any mode |
| Core.LocalDiffConditional.ScanRule | plumber/core.py:96-98 | the loop over the changed files computes one rule's scan |
| Core.EvaluateTwice | plumber/core.py:42-55 | without memoization a second evaluate gives the same answer and repeats the repository operations |
| Core.ShellConditional.CreateCheckpoint | plumber/core.py:110-111 | returns None |
| Core.ShellConditional.Evaluate | plumber/core.py:113-114 | returns None |
| StoreIO.FilePath | plumber/io.py:22-27 | the file store accepts exactly a string `path`, and otherwise raises ConfigError |
| StoreIO.YamlFileStore.constructor | plumber/io.py:17-20 | the path starts as None |
| StoreIO.YamlFileStore.Configure | plumber/io.py:22-27 | succeeds exactly with a string path; an absent path sets None and raises ConfigError; a mistyped one leaves the path alone |
| StoreIO.YamlFileStore.GetData | plumber/io.py:29-37 | the stored document, or the empty mapping when the file does not exist |
| StoreIO.YamlFileStore.SaveData | plumber/io.py:39-41 | the file now holds the document, and no other file changes |
| StoreIO.FileRoundTrip | plumber/io.py:29-41 | a fresh path reads as empty, and a saved document is read back by another store on the same path |
| StoreIO.KubeSettingsOf | plumber/io.py:101-107 | name, namespace and placeholder are the configured strings or `plumber-checkpoint`, `default`, `.plumber.checkpoint.yml`; a mistyped one raises ConfigError |
| StoreIO.KubeConfigStore.Configure | plumber/io.py:101-114 | the store is configured with those settings and the cluster's client exactly when they are well typed; when one lookup fails, the settings read before it are already assigned and the later ones and the client are unchanged |
| StoreIO.KubeConfigStore.GetData | plumber/io.py:116-126 | one read; a 404 reads as the empty mapping, another API error is IOError "Could not read data", otherwise the placeholder file (KeyError when absent) |
| StoreIO.KubeConfigStore.ConfigMapExists | plumber/io.py:128-137 | one read; true when found, false on 404, IOError otherwise |
| StoreIO.KubeConfigStore.SaveData | plumber/io.py:139-154 | replaces an existing config map and creates a missing one, holding just the placeholder file; the existence check's IOError passes through unchanged; a replace or create the API rejects, even after a successful existence check, is IOError "Could now write data" and changes nothing |
| StoreIO.KubeRoundTrip | plumber/io.py:116-154 | on a working API a saved document is read back, whether the config map existed or not |
| StoreIO.KubeRejectedWrite | plumber/io.py:116-154 | when reads work but the API rejects writes, the save fails with the write's IOError and a later read gives what an earlier read gave |
| StoreIO.ResolveMeaning | plumber/io.py:157-183 | no configuration or no type gives the default file store; the type is matched case-insensitively; an unknown type is a ConfigError; a file store keeps an explicit path or gets the default one, which is also written into the caller's `config` mapping; the kube store gets its defaults |
| StoreIO.InitializeDefaultCheckpointStore | plumber/io.py:186-190 | a new plain file store at the default checkpoint file |
| StoreIO.CreateCheckpointStore | plumber/io.py:157-183 | fails exactly when the factory's resolution fails, with the same error; otherwise builds a fresh store with the resolved settings; the caller's configuration ends as planned |
| StoreIO.NoDollarUnchanged | plumber/io.py:54-57 | a string without `$` comes back unchanged |
| StoreIO.SubstituteEnvVar | plumber/io.py:54-63 | replaces the placeholders of the first line from the last one back; its meaning is given by StoreIO.NoDollarUnchanged, StoreIO.SinglePlaceholder, StoreIO.SubstituteOnLine, StoreIO.SecondPlaceholder, StoreIO.TwoPlaceholders and StoreIO.LaterLinesDropped |
| StoreIO.SinglePlaceholder | plumber/io.py:54-63 | `a${env.NAME}b` on one line becomes `a`, the variable's value or `{env.NAME}` when unset, then `b` |
| StoreIO.SubstituteOnLine | plumber/io.py:54-63 | the recursive step: on one line whose last `$` starts a placeholder, the result is the substituted text before it, then the variable's value or `{env.NAME}`, then the rest of the line |
| StoreIO.SecondPlaceholder | plumber/io.py:54-63 | `p${env.NAME}b` on one line, with `b` free of `$` and any prefix `p`, becomes the substituted `p`, the value, then `b` |
| StoreIO.TwoPlaceholders | plumber/io.py:54-63 | `a${env.A}m${env.B}b` on one line becomes `a`, A's value, `m`, B's value, then `b` |
| StoreIO.LaterLinesDropped | plumber/io.py:48-63 | once the first line holds a placeholder, the text after that line does not affect the result |

## Left out

- Subprocess, git, Kubernetes and file I/O are foreign calls. They are replaced by the abstract shell, repository, API and disk described above. Opening a repository (`Repo(current_path())`) cannot fail in the model.
- Floats, dates and the other YAML scalars that are not null, booleans, integers or strings are not values of the model. So a `timeout: 1.5`, which Python rejects with a ConfigError, and a float step, whose `str()` goes into a batch script, cannot be written.
- Logging (`LOG.*`, `create_execution_log`) produces no result and is left out. So is the `yaml.dump` text inside error messages: messages keep only their fixed words.
- Regular expressions and `evaluate_expression` are uninterpreted parameters, so no property depends on regex or expression semantics. The older detector's `exec`/`eval` is one abstract function of the expression, the rules and the diffs.
- `head.commit.diff(commit)` is a commit's stored list of diffs, and `a_rawpath.decode('utf-8')` is the diff's path string.
- Operators.Shape: output bytes are modelled as strings, and the `b'...'` text of the timeout message does not escape special characters.
- Operators.Executor.Execute: requires that configure succeeded whenever steps are set. The source has the same dependence: `results` is a list only after a successful configure.
- Sequential mode appends the recorded results to `results` in one step, after the loop, rather than one at a time. The order and contents are the same.
- Core.ConfigureMeaning: a `branch` that is a string or a list is tested with `in` and then indexed, which raises TypeError. The model states the absent-or-mapping case and the non-searchable case.
- Core.LocalDiffConditional.Evaluate: a target branch that is not a string stands for a failed checkout. It records no checkout attempt, only the restoring one.
- Iterating a mapping-valued `diff` in the older detector is modelled as a TypeError. Python would iterate its keys.
- StoreIO.CreateCheckpointStore: a store `config` that is not a mapping is a TypeError for every store type. For the file stores Python also raises TypeError, but the Kubernetes store's `configure` (plumber/io.py:102-107) uses `in`, so Python accepts any string or list that contains none of the three key names, such as `config: ''`, and configures the defaults; a string or list holding a key name raises TypeError on the lookup.
- YAML dumping and loading are taken to be inverse, so a stored document is the loaded value itself. The YAML implicit-resolver and constructor registration of `YamlEnvFileStore` is left out. Its substitution function is modelled: the `.` of its pattern stops at a newline, so the text after the first line of a matched value is not in the result.
- The git add, commit and push after each `YamlGitFileStore` save. The store is the file store with a `git` flag.
- The Kubernetes configuration loading (`load_incluster_config`, `load_kube_config`), and the token-refresh patch in `plumber/common.py`.
- The configuration key names, and the store type names `localfile`, `localgit` and `kubeconfig`, are used as their lower-case spelling. The default checkpoint file name is `.plumber.checkpoint.yml`. `plumber/common.py` lines 1-57 do not define these constants, so the values are assumptions.
- Common.Lower: only the ASCII capitals A-Z are lowered. Python's `str.lower` maps all of Unicode, for example U+212A KELVIN SIGN to `k`, and can change the length (U+0130 lowers to two code points). So a store type such as `\u212Aubeconfig`, which Python reads as `kubeconfig`, is an unknown type in the model.
- Common.Repr: a mapping's entries are listed in ascending key order, where Python keeps their insertion order, which the model's mappings do not record. Only backslash, the quote, newline, carriage return and tab are escaped; Python also writes other unprintable characters as `\x..` or `\u....` escapes.
- The typed lookup checks the exact kind. Python's `bool` being a subclass of `int` is not modelled.
- `current_path`, the planner, pipes, hooks, the command line and `plumber/interfaces.py` are not part of this model.

## Findings

| source | as written | input that shows it | evidently intended | confidence | as-written member | corrected member |
|---|---|---|---|---|---|---|
| plumber/common.py:53-55 | `get_or_default(config, name, default)` takes three parameters and returns the key `name` when it is present; every caller in the store factory, the stores and the detector passes a fourth, type argument (plumber/io.py:23, 102-107 and 159; plumber/operators.py:30-46, 125-161 and 181-186), which raises TypeError as written | `get_or_default({'key': 'value'}, 'key', 'default')` returns `'key'`; `get_or_default({}, 'path', None, str)` raises TypeError | return `config[name]`, with the optional type check every caller passes; the model uses this lookup at every call site | high, not executed | Common.GetOrDefaultAsWritten, Common.GetOrDefaultCounterexample | Common.GetOrDefault |
| plumber/core.py:87-98 | `re.match(pattern, detected_diff.a_rawpath)` applies a string pattern to the raw bytes path | the rule `{path: 'mypath/.*'}` with a changed file `mypath/file1` raises TypeError | match against `a_rawpath.decode('utf-8')`, as `plumber/operators.py` does | medium, not executed | Core.RuleScanSetAsWritten, Core.RawPathCounterexample | Core.RuleScanSet |
