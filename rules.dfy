/** What the local-diff condition of plumber/operators.py computes, as pure
    functions: the diffs collected while walking history back to the
    checkpoint commit, the content diff of one changed file, the "any" mode
    and the "expression" mode over the configured diff rules. The methods of
    Operators.LocalDiffConditional are proved equal to these functions; the
    lemmas here say what the functions mean. */
module DiffRules {
  import opened Wrappers
  import opened Common
  import opened Git

  /** re.match(pattern, text) is not None, left uninterpreted. */
  type Matcher = (string, string) -> bool

  // ---------------------------------------------------------------------
  // Content diff (_has_content_diff)

  /** Lines of the head-side blob that the older blob does not have. */
  function HeadOnlyLines(d: Diff): set<string> {
    set l | l in Split(d.aBlob) && l !in Split(d.bBlob)
  }

  predicate HasContentDiff(pattern: string, d: Diff, m: Matcher) {
    exists l | l in HeadOnlyLines(d) :: m(pattern, l)
  }

  /** An unchanged blob never has a content diff. */
  lemma UnchangedBlobHasNoContentDiff(pattern: string, d: Diff, m: Matcher)
    requires d.aBlob == d.bBlob
    ensures !HasContentDiff(pattern, d, m)
  {
  }

  /** A line added at the end of the file that matches the pattern is a content diff. */
  lemma AppendedMatchingLineIsContentDiff(pattern: string, d: Diff, x: string, m: Matcher)
    requires '\n' !in x && m(pattern, x)
    requires x !in Split(d.bBlob)
    requires d.aBlob == d.bBlob + "\n" + x
    ensures HasContentDiff(pattern, d, m)
  {
    AppendedLineIsSplitPiece(d.bBlob, x);
    assert Split(d.aBlob)[|Split(d.bBlob)|] == x;
    assert x in HeadOnlyLines(d);
  }

  // ---------------------------------------------------------------------
  // History walk (_get_diffs_from_current)

  /** The diffs gathered from log[i..]: each commit's diffs, stopping after the
      first commit whose id equals the checkpoint. */
  function CollectFrom(log: seq<Commit>, i: nat, checkpoint: Value): seq<Diff>
    requires i <= |log|
    decreases |log| - i
  {
    if i == |log| then []
    else log[i].diffs + (if Str(log[i].id) == checkpoint then [] else CollectFrom(log, i + 1, checkpoint))
  }

  /** Index of the first commit at or after i whose id is the checkpoint, or |log|. */
  function FirstMatchFrom(log: seq<Commit>, i: nat, checkpoint: Value): (k: nat)
    requires i <= |log|
    ensures i <= k <= |log|
    ensures k < |log| ==> Str(log[k].id) == checkpoint
    ensures forall j :: i <= j < k ==> Str(log[j].id) != checkpoint
    decreases |log| - i
  {
    if i == |log| then |log|
    else if Str(log[i].id) == checkpoint then i
    else FirstMatchFrom(log, i + 1, checkpoint)
  }

  function Flatten(cs: seq<Commit>): seq<Diff> {
    if cs == [] then [] else cs[0].diffs + Flatten(cs[1..])
  }

  function Min(a: int, b: int): int {
    if a <= b then a else b
  }

  /** The collected diffs are those of the commits from i up to and including
      the first checkpoint match, in log order, or of all of them when none matches. */
  lemma {:induction false} CollectSpan(log: seq<Commit>, i: nat, checkpoint: Value)
    requires i <= |log|
    ensures CollectFrom(log, i, checkpoint)
         == Flatten(log[i..Min(FirstMatchFrom(log, i, checkpoint) + 1, |log|)])
    decreases |log| - i
  {
    if i < |log| {
      var e := Min(FirstMatchFrom(log, i, checkpoint) + 1, |log|);
      if Str(log[i].id) == checkpoint {
        assert e == i + 1;
        assert log[i..e] == [log[i]];
        assert Flatten([log[i]]) == log[i].diffs + Flatten([]);
      } else {
        CollectSpan(log, i + 1, checkpoint);
        assert FirstMatchFrom(log, i, checkpoint) == FirstMatchFrom(log, i + 1, checkpoint);
        assert log[i..e][0] == log[i] && log[i..e][1..] == log[i + 1..e];
        assert Flatten(log[i..e]) == log[i].diffs + Flatten(log[i + 1..e]);
      }
    }
  }

  /** When history is exhausted without finding the checkpoint, every commit's diffs are collected. */
  lemma CheckpointNotFoundCollectsAll(log: seq<Commit>, checkpoint: Value)
    requires forall j :: 0 <= j < |log| ==> Str(log[j].id) != checkpoint
    ensures CollectFrom(log, 0, checkpoint) == Flatten(log)
  {
    CollectSpan(log, 0, checkpoint);
    assert log[0..|log|] == log;
  }

  /** The walk once the checkpoint is known to contain `commit`: the lookup
      `checkpoint[commit]` follows each commit's diffs, so it is only made, and
      can only raise, when the log has a commit. */
  function DiffsSince(log: seq<Commit>, checkpoint: Value): (r: Result<seq<Diff>, Error>)
    ensures |log| == 0 ==> r == Ok([])
    ensures checkpoint.Dict? && CommitKey in checkpoint.entries ==>
              r == Ok(CollectFrom(log, 0, checkpoint.entries[CommitKey]))
    ensures |log| > 0 && !checkpoint.Dict? ==> r.Err? && r.error.kind == TypeError
  {
    if |log| == 0 then Ok([])
    else
      match PyIndex(checkpoint, CommitKey)
      case Err(e) => Err(e)
      case Ok(v) => Ok(CollectFrom(log, 0, v))
  }

  /** _get_diffs_from_current(): no diffs (None) when `commit not in checkpoint`,
      where `in` is Python's: a key test on a mapping, a substring test on a
      string, a membership test on a list, and a TypeError otherwise. */
  function DiffsFromCurrent(checkpoint: Value, log: seq<Commit>): (r: Result<Option<seq<Diff>>, Error>)
    ensures checkpoint.Dict? && CommitKey !in checkpoint.entries ==> r == Ok(None)
    ensures checkpoint.Dict? && CommitKey in checkpoint.entries ==>
              r == Ok(Some(CollectFrom(log, 0, checkpoint.entries[CommitKey])))
    ensures (checkpoint.Null? || checkpoint.Bool? || checkpoint.Int?) ==> r.Err? && r.error.kind == TypeError
  {
    match PyContains(checkpoint, CommitKey)
    case Err(e) => Err(e)
    case Ok(has) =>
      if !has then Ok(None)
      else
        match DiffsSince(log, checkpoint)
        case Err(e) => Err(e)
        case Ok(ds) => Ok(Some(ds))
  }

  /** A string checkpoint is searched, not looked up: without `commit` in its
      text the pipe runs; with it, indexing the string by `commit` raises
      TypeError as soon as the log has a commit. */
  lemma StringCheckpoint(s: string, log: seq<Commit>)
    ensures !IsSubstring(CommitKey, s) ==> DiffsFromCurrent(Str(s), log) == Ok(None)
    ensures IsSubstring(CommitKey, s) && |log| > 0 ==>
              DiffsFromCurrent(Str(s), log).Err? && DiffsFromCurrent(Str(s), log).error.kind == TypeError
    ensures IsSubstring(CommitKey, s) && |log| == 0 ==> DiffsFromCurrent(Str(s), log) == Ok(Some([]))
  {
  }

  // ---------------------------------------------------------------------
  // Any mode (_has_diff_all)

  /** The inner loop over the detected diffs for one rule, from diff j. */
  function RuleScan(rule: Config, diffs: seq<Diff>, j: nat, m: Matcher): Result<bool, Error>
    requires j <= |diffs|
    decreases |diffs| - j
  {
    if j == |diffs| then Ok(false)
    else
      match GetOrDefault(rule, PathKey, Null, Some(StrKind))
      case Err(e) => Err(e)
      case Ok(path) =>
        if path.Str? && m(path.s, diffs[j].aPath) then
          match GetOrDefault(rule, ContentKey, Null, Some(StrKind))
          case Err(e) => Err(e)
          case Ok(content) =>
            if content.Str? then
              if HasContentDiff(content.s, diffs[j], m) then Ok(true)
              else RuleScan(rule, diffs, j + 1, m)
            else Ok(true)
        else RuleScan(rule, diffs, j + 1, m)
  }

  /** The outer loop over the rules, from rule i. */
  function AnyScan(rules: seq<Value>, i: nat, diffs: seq<Diff>, m: Matcher): Result<bool, Error>
    requires i <= |rules|
    decreases |rules| - i
  {
    if i == |rules| then Ok(false)
    else if !rules[i].Dict? then Err(ConfigErr("Invalid diff configuration specified"))
    else
      match RuleScan(rules[i].entries, diffs, 0, m)
      case Err(e) => Err(e)
      case Ok(hit) => if hit then Ok(true) else AnyScan(rules, i + 1, diffs, m)
  }

  /** A rule is a mapping whose `path` and `content`, when present, are strings. */
  predicate RuleWellFormed(rule: Value) {
    && rule.Dict?
    && (PathKey in rule.entries ==> rule.entries[PathKey].Str?)
    && (ContentKey in rule.entries ==> rule.entries[ContentKey].Str?)
  }

  /** A rule hits a changed file: its path pattern matches the file's path and,
      if it has a content pattern, the file has a content diff matching it. */
  predicate Hits(rule: Config, d: Diff, m: Matcher) {
    && PathKey in rule && rule[PathKey].Str?
    && m(rule[PathKey].s, d.aPath)
    && (ContentKey in rule ==> rule[ContentKey].Str? && HasContentDiff(rule[ContentKey].s, d, m))
  }

  predicate RuleValueHits(rule: Value, d: Diff, m: Matcher) {
    rule.Dict? && Hits(rule.entries, d, m)
  }

  lemma {:induction false} RuleScanMeaning(rule: Config, diffs: seq<Diff>, j: nat, m: Matcher)
    requires j <= |diffs| && RuleWellFormed(Dict(rule))
    ensures RuleScan(rule, diffs, j, m) == Ok(exists k :: j <= k < |diffs| && Hits(rule, diffs[k], m))
    decreases |diffs| - j
  {
    if j < |diffs| {
      RuleScanMeaning(rule, diffs, j + 1, m);
    }
  }

  /** Any mode on well-formed rules: true iff some rule hits some changed file. */
  lemma {:induction false} AnyScanMeaning(rules: seq<Value>, i: nat, diffs: seq<Diff>, m: Matcher)
    requires i <= |rules|
    requires forall r :: i <= r < |rules| ==> RuleWellFormed(rules[r])
    ensures AnyScan(rules, i, diffs, m)
         == Ok(exists r, k :: i <= r < |rules| && 0 <= k < |diffs| && RuleValueHits(rules[r], diffs[k], m))
    decreases |rules| - i
  {
    if i < |rules| {
      RuleScanMeaning(rules[i].entries, diffs, 0, m);
      AnyScanMeaning(rules, i + 1, diffs, m);
    }
  }

  /** The first rule that hits decides: any mode answers true whatever the
      rules after it are, malformed ones included. */
  lemma {:induction false} FirstHitAnswersTrue(rules: seq<Value>, i: nat, r: nat, diffs: seq<Diff>, m: Matcher)
    requires i <= r < |rules|
    requires forall q :: i <= q <= r ==> RuleWellFormed(rules[q])
    requires forall q, k :: i <= q < r && 0 <= k < |diffs| ==> !RuleValueHits(rules[q], diffs[k], m)
    requires exists k :: 0 <= k < |diffs| && RuleValueHits(rules[r], diffs[k], m)
    ensures AnyScan(rules, i, diffs, m) == Ok(true)
    decreases r - i
  {
    RuleScanMeaning(rules[i].entries, diffs, 0, m);
    if i < r {
      FirstHitAnswersTrue(rules, i + 1, r, diffs, m);
    }
  }

  /** A rule without a `path` never matches. */
  lemma {:induction false} RuleWithoutPathNeverMatches(rule: Config, diffs: seq<Diff>, j: nat, m: Matcher)
    requires j <= |diffs| && PathKey !in rule
    ensures RuleScan(rule, diffs, j, m) == Ok(false)
    decreases |diffs| - j
  {
    if j < |diffs| {
      RuleWithoutPathNeverMatches(rule, diffs, j + 1, m);
    }
  }

  /** Reaching a rule that is not a mapping raises ConfigError. */
  lemma {:induction false} NonDictRuleRaises(rules: seq<Value>, i: nat, k: nat, diffs: seq<Diff>, m: Matcher)
    requires i <= k < |rules| && !rules[k].Dict?
    requires forall r :: i <= r < k ==> RuleWellFormed(rules[r])
    requires forall r, d :: i <= r < k && 0 <= d < |diffs| ==> !RuleValueHits(rules[r], diffs[d], m)
    ensures AnyScan(rules, i, diffs, m).Err? && AnyScan(rules, i, diffs, m).error.kind == ConfigError
    decreases k - i
  {
    if i < k {
      RuleScanMeaning(rules[i].entries, diffs, 0, m);
      NonDictRuleRaises(rules, i + 1, k, diffs, m);
    }
  }

  // ---------------------------------------------------------------------
  // Expression mode (_has_diff_expression)

  /** The inner loop for a rule with id `id` and string path, from diff j. */
  function ExprRuleScan(id: string, rule: Config, diffs: seq<Diff>, j: nat, exp: map<string, bool>, m: Matcher)
    : Result<map<string, bool>, Error>
    requires PathKey in rule && rule[PathKey].Str? && j <= |diffs|
    decreases |diffs| - j
  {
    if j == |diffs| then Ok(exp)
    else if m(rule[PathKey].s, diffs[j].aPath) then
      match GetOrDefault(rule, ContentKey, Null, Some(StrKind))
      case Err(e) => Err(e)
      case Ok(content) =>
        if content.Str? then
          if id !in exp || !exp[id] then
            ExprRuleScan(id, rule, diffs, j + 1, exp[id := HasContentDiff(content.s, diffs[j], m)], m)
          else ExprRuleScan(id, rule, diffs, j + 1, exp, m)
        else ExprRuleScan(id, rule, diffs, j + 1, exp[id := true], m)
    else ExprRuleScan(id, rule, diffs, j + 1, exp, m)
  }

  /** One iteration of the outer loop: the bindings after rule `rule`. */
  function ExprRule(rule: Value, diffs: seq<Diff>, exp: map<string, bool>, m: Matcher): Result<map<string, bool>, Error> {
    if !rule.Dict? then Err(ConfigErr("Invalid diff configuration specified"))
    else
      match GetOrDefault(rule.entries, IdKey, Null, Some(StrKind))
      case Err(e) => Err(e)
      case Ok(id) =>
        if !id.Str? then Ok(exp)
        else
          match GetOrDefault(rule.entries, PathKey, Null, Some(StrKind))
          case Err(e) => Err(e)
          case Ok(path) =>
            if !path.Str? then Ok(exp)
            else
              match ExprRuleScan(id.s, rule.entries, diffs, 0, exp, m)
              case Err(e) => Err(e)
              case Ok(e) => Ok(if id.s in e then e else e[id.s := false])
  }

  /** The outer loop over the rules from rule i, starting from bindings exp. */
  function ExprScan(rules: seq<Value>, i: nat, diffs: seq<Diff>, exp: map<string, bool>, m: Matcher)
    : Result<map<string, bool>, Error>
    requires i <= |rules|
    decreases |rules| - i
  {
    if i == |rules| then Ok(exp)
    else
      match ExprRule(rules[i], diffs, exp, m)
      case Err(e) => Err(e)
      case Ok(e) => ExprScan(rules, i + 1, diffs, e, m)
  }

  /** Well formed for expression mode: also the `id`, when present, is a string. */
  predicate RuleWellFormedForExpression(rule: Value) {
    RuleWellFormed(rule) && (IdKey in rule.entries ==> rule.entries[IdKey].Str?)
  }

  /** The rule declares variable x: it has id x and a path. */
  predicate Declares(rule: Value, x: string) {
    rule.Dict? && IdKey in rule.entries && rule.entries[IdKey] == Str(x) && PathKey in rule.entries
  }

  predicate DeclaresSome(rule: Value) {
    rule.Dict? && IdKey in rule.entries && rule.entries[IdKey].Str? && PathKey in rule.entries
  }

  function DeclaredIds(rules: seq<Value>, i: nat): set<string>
    requires i <= |rules|
    decreases |rules| - i
  {
    if i == |rules| then {}
    else (if DeclaresSome(rules[i]) then {rules[i].entries[IdKey].s} else {}) + DeclaredIds(rules, i + 1)
  }

  lemma {:induction false} DeclaredIdsMeaning(rules: seq<Value>, i: nat, x: string)
    requires i <= |rules|
    ensures x in DeclaredIds(rules, i) <==> exists r :: i <= r < |rules| && Declares(rules[r], x)
    decreases |rules| - i
  {
    if i < |rules| {
      DeclaredIdsMeaning(rules, i + 1, x);
    }
  }

  ghost predicate RuleHitsSome(rule: Config, diffs: seq<Diff>, m: Matcher) {
    exists k :: 0 <= k < |diffs| && Hits(rule, diffs[k], m)
  }

  /** Some rule from i that declares x hits some changed file. */
  ghost predicate IdHit(rules: seq<Value>, i: nat, diffs: seq<Diff>, x: string, m: Matcher) {
    exists r :: i <= r < |rules| && Declares(rules[r], x) && RuleHitsSome(rules[r].entries, diffs, m)
  }

  /** The variable bindings expression mode evaluates against. */
  ghost function Bindings(rules: seq<Value>, diffs: seq<Diff>, m: Matcher): map<string, bool> {
    map x | x in DeclaredIds(rules, 0) :: IdHit(rules, 0, diffs, x, m)
  }

  ghost predicate PathMatchFrom(rule: Config, diffs: seq<Diff>, j: nat, m: Matcher)
    requires PathKey in rule && rule[PathKey].Str?
  {
    exists k :: j <= k < |diffs| && m(rule[PathKey].s, diffs[k].aPath)
  }

  ghost predicate HitsFrom(rule: Config, diffs: seq<Diff>, j: nat, m: Matcher) {
    exists k :: j <= k < |diffs| && Hits(rule, diffs[k], m)
  }

  function Bound(exp: map<string, bool>, id: string): bool {
    id in exp && exp[id]
  }

  lemma {:induction false} ExprRuleScanMeaning(id: string, rule: Config, diffs: seq<Diff>, j: nat, exp: map<string, bool>, m: Matcher)
    requires PathKey in rule && rule[PathKey].Str? && j <= |diffs|
    requires ContentKey in rule ==> rule[ContentKey].Str?
    ensures ExprRuleScan(id, rule, diffs, j, exp, m)
         == Ok(if PathMatchFrom(rule, diffs, j, m) then exp[id := Bound(exp, id) || HitsFrom(rule, diffs, j, m)] else exp)
    decreases |diffs| - j
  {
    if j < |diffs| {
      var p := rule[PathKey].s;
      if m(p, diffs[j].aPath) {
        var exp1 := if ContentKey in rule then
                      (if id !in exp || !exp[id] then exp[id := HasContentDiff(rule[ContentKey].s, diffs[j], m)] else exp)
                    else exp[id := true];
        assert exp1 == exp[id := Bound(exp, id) || Hits(rule, diffs[j], m)];
        ExprRuleScanMeaning(id, rule, diffs, j + 1, exp1, m);
        assert HitsFrom(rule, diffs, j, m) == (Hits(rule, diffs[j], m) || HitsFrom(rule, diffs, j + 1, m)) by {
          if HitsFrom(rule, diffs, j, m) && !Hits(rule, diffs[j], m) {
            var k :| j <= k < |diffs| && Hits(rule, diffs[k], m);
            assert j + 1 <= k;
          }
        }
        var want := exp[id := Bound(exp, id) || HitsFrom(rule, diffs, j, m)];
        if PathMatchFrom(rule, diffs, j + 1, m) {
          assert exp1[id := Bound(exp1, id) || HitsFrom(rule, diffs, j + 1, m)] == want;
        } else {
          assert !HitsFrom(rule, diffs, j + 1, m);
          assert exp1 == want;
        }
        assert PathMatchFrom(rule, diffs, j, m);
      } else {
        ExprRuleScanMeaning(id, rule, diffs, j + 1, exp, m);
        assert PathMatchFrom(rule, diffs, j, m) == PathMatchFrom(rule, diffs, j + 1, m) by {
          if PathMatchFrom(rule, diffs, j, m) {
            var k :| j <= k < |diffs| && m(p, diffs[k].aPath);
            assert k != j;
          }
        }
        assert HitsFrom(rule, diffs, j, m) == HitsFrom(rule, diffs, j + 1, m) by {
          if HitsFrom(rule, diffs, j, m) {
            var k :| j <= k < |diffs| && Hits(rule, diffs[k], m);
            assert k != j;
          }
        }
      }
    } else {
      assert !PathMatchFrom(rule, diffs, j, m);
    }
  }

  lemma ExprRuleMeaning(rule: Value, diffs: seq<Diff>, exp: map<string, bool>, m: Matcher)
    requires RuleWellFormedForExpression(rule)
    ensures ExprRule(rule, diffs, exp, m)
         == Ok(if DeclaresSome(rule)
               then exp[rule.entries[IdKey].s := Bound(exp, rule.entries[IdKey].s) || RuleHitsSome(rule.entries, diffs, m)]
               else exp)
  {
    if DeclaresSome(rule) {
      var id := rule.entries[IdKey].s;
      ExprRuleScanMeaning(id, rule.entries, diffs, 0, exp, m);
      assert HitsFrom(rule.entries, diffs, 0, m) == RuleHitsSome(rule.entries, diffs, m);
      if !PathMatchFrom(rule.entries, diffs, 0, m) {
        assert !RuleHitsSome(rule.entries, diffs, m);
        if id in exp {
          assert exp == exp[id := Bound(exp, id)];
        }
      }
    }
  }

  /** Some rule from i declaring x hits: rule i does, or one after it. */
  lemma IdHitUnfold(rules: seq<Value>, i: nat, diffs: seq<Diff>, x: string, m: Matcher)
    requires i < |rules|
    ensures IdHit(rules, i, diffs, x, m)
         == ((Declares(rules[i], x) && RuleHitsSome(rules[i].entries, diffs, m)) || IdHit(rules, i + 1, diffs, x, m))
  {
    if IdHit(rules, i, diffs, x, m) && !(Declares(rules[i], x) && RuleHitsSome(rules[i].entries, diffs, m)) {
      var r :| i <= r < |rules| && Declares(rules[r], x) && RuleHitsSome(rules[r].entries, diffs, m);
      assert r != i;
    }
  }

  /** The bindings the scan from rule i ends with, starting from exp. */
  ghost function BindingsFrom(exp: map<string, bool>, rules: seq<Value>, i: nat, diffs: seq<Diff>, m: Matcher)
    : map<string, bool>
    requires i <= |rules|
  {
    map x | x in exp.Keys + DeclaredIds(rules, i) :: Bound(exp, x) || IdHit(rules, i, diffs, x, m)
  }

  /** The bindings after one well-formed rule (ExprRuleMeaning). */
  ghost function RuleStep(rule: Value, exp: map<string, bool>, diffs: seq<Diff>, m: Matcher): map<string, bool> {
    if DeclaresSome(rule)
    then exp[rule.entries[IdKey].s := Bound(exp, rule.entries[IdKey].s) || RuleHitsSome(rule.entries, diffs, m)]
    else exp
  }

  lemma BindingsStep(rules: seq<Value>, i: nat, diffs: seq<Diff>, exp: map<string, bool>, m: Matcher)
    requires i < |rules|
    ensures BindingsFrom(RuleStep(rules[i], exp, diffs, m), rules, i + 1, diffs, m) == BindingsFrom(exp, rules, i, diffs, m)
  {
    var rule := rules[i];
    var e1 := RuleStep(rule, exp, diffs, m);
    var got := BindingsFrom(e1, rules, i + 1, diffs, m);
    var want := BindingsFrom(exp, rules, i, diffs, m);
    assert got.Keys == want.Keys;
    forall x | x in want.Keys
      ensures got[x] == want[x]
    {
      IdHitUnfold(rules, i, diffs, x, m);
      if DeclaresSome(rule) && x == rule.entries[IdKey].s {
        assert Declares(rule, x);
      } else {
        assert Bound(e1, x) == Bound(exp, x);
        assert !Declares(rule, x);
      }
    }
  }

  lemma {:induction false} ExprScanMeaning(rules: seq<Value>, i: nat, diffs: seq<Diff>, exp: map<string, bool>, m: Matcher)
    requires i <= |rules|
    requires forall r :: i <= r < |rules| ==> RuleWellFormedForExpression(rules[r])
    ensures ExprScan(rules, i, diffs, exp, m) == Ok(BindingsFrom(exp, rules, i, diffs, m))
    decreases |rules| - i
  {
    if i == |rules| {
      assert BindingsFrom(exp, rules, i, diffs, m) == exp;
    } else {
      ExprRuleMeaning(rules[i], diffs, exp, m);
      ExprScanMeaning(rules, i + 1, diffs, RuleStep(rules[i], exp, diffs, m), m);
      BindingsStep(rules, i, diffs, exp, m);
    }
  }

  /** Expression mode on well-formed rules: one variable per declared id, true
      iff some rule with that id hits some changed file. Ids of rules without a
      path, and rules without an id, contribute nothing. */
  lemma ExpressionBindings(rules: seq<Value>, diffs: seq<Diff>, m: Matcher)
    requires forall r :: 0 <= r < |rules| ==> RuleWellFormedForExpression(rules[r])
    ensures ExprScan(rules, 0, diffs, map[], m) == Ok(Bindings(rules, diffs, m))
    ensures forall x :: x in Bindings(rules, diffs, m) <==> exists r :: 0 <= r < |rules| && Declares(rules[r], x)
  {
    var empty: map<string, bool> := map[];
    ExprScanMeaning(rules, 0, diffs, empty, m);
    assert BindingsFrom(empty, rules, 0, diffs, m) == Bindings(rules, diffs, m);
    forall x ensures x in Bindings(rules, diffs, m) <==> exists r :: 0 <= r < |rules| && Declares(rules[r], x) {
      DeclaredIdsMeaning(rules, 0, x);
    }
  }

  // ---------------------------------------------------------------------
  // The detection as a whole (_has_diff)

  function ExpressionMode(expression: string, rules: seq<Value>, diffs: seq<Diff>, m: Matcher, ev: Evaluator)
    : Result<bool, Error>
  {
    match ExprScan(rules, 0, diffs, map[], m)
    case Err(e) => Err(e)
    case Ok(vars) => EvaluateExpression(ev, expression, vars)
  }

  /** An expression that names an id no rule declares raises NameError. */
  lemma UndeclaredIdRaisesNameError(expression: string, rules: seq<Value>, diffs: seq<Diff>, m: Matcher, ev: Evaluator, x: string)
    requires forall r :: 0 <= r < |rules| ==> RuleWellFormedForExpression(rules[r])
    requires ev.names(expression).Some? && x in ev.names(expression).value
    requires forall r :: 0 <= r < |rules| ==> !Declares(rules[r], x)
    ensures ExpressionMode(expression, rules, diffs, m, ev).Err?
    ensures ExpressionMode(expression, rules, diffs, m, ev).error.kind == NameError
  {
    ExpressionBindings(rules, diffs, m);
  }

  /** _has_diff(): whether the tracked paths changed, for one branch's log.
      Without a checkpoint commit the pipe runs, whatever the rules. */
  function Detect(rules: seq<Value>, checkpoint: Value, expression: Option<string>, log: seq<Commit>,
                   m: Matcher, ev: Evaluator): (r: Result<bool, Error>)
    ensures DiffsFromCurrent(checkpoint, log) == Ok(None) ==> r == Ok(true)
    ensures DiffsFromCurrent(checkpoint, log).Err? ==> r == Err(DiffsFromCurrent(checkpoint, log).error)
  {
    match DiffsFromCurrent(checkpoint, log)
    case Err(e) => Err(e)
    case Ok(found) =>
      if found.None? then Ok(true)
      else if expression.Some? then ExpressionMode(expression.value, rules, found.value, m, ev)
      else AnyScan(rules, 0, found.value, m)
  }

  /** With a mapping checkpoint holding `commit`, any mode decides on the
      diffs up to the checkpoint commit: on well-formed rules, true exactly
      when some rule hits one of them. */
  lemma DetectAnyMode(rules: seq<Value>, cp: Config, log: seq<Commit>, m: Matcher, ev: Evaluator)
    requires CommitKey in cp
    requires forall r :: 0 <= r < |rules| ==> RuleWellFormed(rules[r])
    ensures var diffs := CollectFrom(log, 0, cp[CommitKey]);
      Detect(rules, Dict(cp), None, log, m, ev)
        == Ok(exists r, k :: 0 <= r < |rules| && 0 <= k < |diffs| && RuleValueHits(rules[r], diffs[k], m))
  {
    assert DiffsFromCurrent(Dict(cp), log) == Ok(Some(CollectFrom(log, 0, cp[CommitKey])));
    AnyScanMeaning(rules, 0, CollectFrom(log, 0, cp[CommitKey]), m);
  }
}
