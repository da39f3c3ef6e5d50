/** Configuration values, error kinds and the configuration lookup
    (plumber/common.py), plus the small text helpers the rest of the model needs. */
module Common {
  import opened Wrappers

  /** A value of the loaded configuration document (YAML node after loading). */
  datatype Value =
    | Null
    | Bool(b: bool)
    | Int(i: int)
    | Str(s: string)
    | List(items: seq<Value>)
    | Dict(entries: map<string, Value>)

  type Config = map<string, Value>

  /** The Python types a typed lookup can demand. */
  datatype Kind = BoolKind | IntKind | StrKind | ListKind | DictKind

  predicate HasKind(v: Value, k: Kind) {
    match k
    case BoolKind => v.Bool?
    case IntKind => v.Int?
    case StrKind => v.Str?
    case ListKind => v.List?
    case DictKind => v.Dict?
  }

  /** ConfigError and IOError are the PlumberError kinds; the others are the
      Python exceptions the modelled code lets escape. */
  datatype ErrorKind =
    | ConfigError
    | IOError
    | ExecutionFailure
    | NameError
    | SyntaxError
    | TypeError
    | KeyError
    | GitError

  /** An error carries a message and an optional inner error (its description). */
  datatype Error = Error(kind: ErrorKind, message: string, inner: Option<string>)

  predicate IsPlumberError(e: Error) {
    e.kind == ConfigError || e.kind == IOError
  }

  function ConfigErr(message: string): (e: Error)
    ensures IsPlumberError(e) && e.kind == ConfigError && e.message == message && e.inner == None
  {
    Error(ConfigError, message, None)
  }

  function IOErr(message: string, inner: string): (e: Error)
    ensures IsPlumberError(e) && e.kind == IOError && e.message == message && e.inner == Some(inner)
  {
    Error(IOError, message, Some(inner))
  }

  function TypeErr(message: string): Error {
    Error(TypeError, message, None)
  }

  // Configuration keys. Their values live in a part of plumber/common.py that
  // is not part of this model; the legacy detector spells the same keys out.
  const IdKey := "id"
  const DiffKey := "diff"
  const BranchKey := "branch"
  const ActiveKey := "active"
  const TargetKey := "target"
  const ExpressionKey := "expression"
  const CommitKey := "commit"
  const PathKey := "path"
  const ContentKey := "content"
  const LabelKey := "label"
  const StepsKey := "steps"
  const BatchKey := "batch"
  const TimeoutKey := "timeout"
  const TypeKey := "type"
  const ConfigKey := "config"
  const NameKey := "name"
  const NamespaceKey := "namespace"
  const PlaceholderKey := "placeholder"

  /** get_or_default exactly as plumber/common.py defines it: a present key
      yields the key itself rather than the value stored under it. */
  function GetOrDefaultAsWritten(config: Config, name: string, default: Value): (r: Value)
    ensures name in config ==> r == Str(name)
    ensures name !in config ==> r == default
  {
    if name in config then Str(name) else default
  }

  /** The lookup the callers and the tests rely on:
      get_or_default(config, name, default[, kind]). */
  function GetOrDefault(config: Config, name: string, default: Value, kind: Option<Kind>): (r: Result<Value, Error>)
    ensures r.Ok? && name in config ==> r.value == config[name]
    ensures r.Ok? && name !in config ==> r.value == default
    ensures r.Ok? && name in config && kind.Some? ==> HasKind(r.value, kind.value)
    ensures r.Err? <==> name in config && kind.Some? && !HasKind(config[name], kind.value)
    ensures r.Err? ==> r.error.kind == ConfigError
  {
    if name !in config then Ok(default)
    else if kind.Some? && !HasKind(config[name], kind.value) then
      Err(ConfigErr("Invalid type for " + name))
    else Ok(config[name])
  }

  /** The lookup of a present key: the definition as written yields "key"
      where the lookup its callers rely on yields "value". */
  lemma GetOrDefaultCounterexample()
    ensures var c := map["key" := Str("value")];
      && GetOrDefaultAsWritten(c, "key", Str("default")) == Str("key")
      && GetOrDefault(c, "key", Str("default"), None) == Ok(Str("value"))
  {
  }

  /** Both definitions agree exactly when the key is absent or its value is
      the key's own name. */
  lemma GetOrDefaultAgreement(config: Config, name: string, default: Value)
    ensures GetOrDefault(config, name, default, None) == Ok(GetOrDefaultAsWritten(config, name, default))
        <==> name !in config || config[name] == Str(name)
  {
  }

  /** The value of an optional typed setting: absent means None. */
  function OptionalStr(config: Config, name: string): (r: Result<Option<string>, Error>)
    ensures r.Ok? <==> name !in config || config[name].Str?
    ensures r.Ok? ==> r.value == if name in config then Some(config[name].s) else None
    ensures r.Err? ==> r.error.kind == ConfigError
  {
    match GetOrDefault(config, name, Null, Some(StrKind))
    case Err(e) => Err(e)
    case Ok(v) => Ok(if v.Str? then Some(v.s) else None)
  }

  /** Python's `key in container` for the containers a configuration holds. */
  function PyContains(container: Value, key: string): (r: Result<bool, Error>)
    ensures r.Err? <==> !(container.Dict? || container.Str? || container.List?)
    ensures container.Dict? ==> r == Ok(key in container.entries)
  {
    match container
    case Dict(m) => Ok(key in m)
    case Str(s) => Ok(IsSubstring(key, s))
    case List(items) => Ok(Str(key) in items)
    case _ => Err(TypeErr("argument is not iterable"))
  }

  /** Python's `container[key]` with a string key. */
  function PyIndex(container: Value, key: string): (r: Result<Value, Error>)
    ensures r.Ok? <==> container.Dict? && key in container.entries
    ensures r.Ok? ==> r.value == container.entries[key]
  {
    if container.Dict? then
      if key in container.entries then Ok(container.entries[key])
      else Err(Error(KeyError, key, None))
    else Err(TypeErr("indices must be integers"))
  }

  predicate OccursAt(needle: string, hay: string, i: int) {
    0 <= i <= |hay| - |needle| && hay[i..i + |needle|] == needle
  }

  /** Python's `needle in hay` on strings. */
  predicate IsSubstring(needle: string, hay: string) {
    exists i | 0 <= i <= |hay| :: OccursAt(needle, hay, i)
  }

  /** Python's `iter(value)` for the shapes a configuration holds: a list
      yields its items, a string its characters. */
  function PyIter(v: Value): (r: Result<seq<Value>, Error>)
    ensures v.List? ==> r == Ok(v.items)
    ensures r.Ok? ==> v.List? || v.Str?
  {
    match v
    case List(items) => Ok(items)
    case Str(s) => Ok(seq(|s|, k requires 0 <= k < |s| => Str([s[k]])))
    case _ => Err(TypeErr("object is not iterable"))
  }

  // ---------------------------------------------------------------------
  // Boolean expressions (evaluate_expression)

  /** The expression evaluator, left abstract: `names` gives the identifiers an
      expression mentions (None when it does not parse), `value` its truth
      value once every mentioned identifier is bound. */
  datatype Evaluator = Evaluator(names: string -> Option<set<string>>, value: (string, map<string, bool>) -> bool)

  /** evaluate_expression(expression, variables) */
  function EvaluateExpression(ev: Evaluator, expression: string, vars: map<string, bool>): (r: Result<bool, Error>)
    ensures ev.names(expression).None? ==> r.Err? && r.error.kind == SyntaxError
    ensures ev.names(expression).Some? && !(ev.names(expression).value <= vars.Keys) ==>
              r.Err? && r.error.kind == NameError
    ensures r.Ok? <==> ev.names(expression).Some? && ev.names(expression).value <= vars.Keys
    ensures r.Ok? ==> r.value == ev.value(expression, vars)
  {
    match ev.names(expression)
    case None => Err(Error(SyntaxError, expression, None))
    case Some(ns) =>
      if ns <= vars.Keys then Ok(ev.value(expression, vars))
      else Err(Error(NameError, expression, None))
  }

  // ---------------------------------------------------------------------
  // Text helpers

  function LowerChar(c: char): char {
    if 'A' <= c <= 'Z' then (c as int + 32) as char else c
  }

  /** str.lower() on ASCII letters. */
  function Lower(s: string): (r: string)
    ensures |r| == |s|
    ensures forall k :: 0 <= k < |s| ==> r[k] == LowerChar(s[k])
    ensures forall k :: 0 <= k < |s| && 'A' <= s[k] <= 'Z' ==> r[k] as int == s[k] as int + 32
    ensures forall k :: 0 <= k < |s| && !('A' <= s[k] <= 'Z') ==> r[k] == s[k]
    ensures forall k :: 0 <= k < |r| ==> !('A' <= r[k] <= 'Z')
  {
    seq(|s|, k requires 0 <= k < |s| => LowerChar(s[k]))
  }

  /** Lowering twice is lowering once. */
  lemma LowerIdempotent(s: string)
    ensures Lower(Lower(s)) == Lower(s)
  {
  }

  function DigitChar(d: nat): char
    requires d < 10
  {
    "0123456789"[d]
  }

  function NatText(n: nat): (r: string)
    ensures |r| >= 1
  {
    if n < 10 then [DigitChar(n)] else NatText(n / 10) + [DigitChar(n % 10)]
  }

  /** str() of a Python int. */
  function IntText(i: int): string {
    if i < 0 then "-" + NatText(-i) else NatText(i)
  }

  /** str.split('\n'): the pieces between newlines; never empty. */
  function Split(s: string): (r: seq<string>)
    ensures |r| >= 1
    ensures forall k :: 0 <= k < |r| ==> '\n' !in r[k]
    decreases |s|
  {
    if |s| == 0 then [""]
    else
      var rest := Split(s[1..]);
      if s[0] == '\n' then [""] + rest
      else [[s[0]] + rest[0]] + rest[1..]
  }

  /** '\n'.join(parts). */
  function Join(parts: seq<string>): string
    requires |parts| >= 1
  {
    if |parts| == 1 then parts[0] else parts[0] + "\n" + Join(parts[1..])
  }

  lemma {:induction false} JoinSplit(s: string)
    ensures Join(Split(s)) == s
    decreases |s|
  {
    if |s| > 0 {
      var rest := Split(s[1..]);
      JoinSplit(s[1..]);
      if s[0] != '\n' && |rest| > 1 {
        assert Join(rest) == rest[0] + "\n" + Join(rest[1..]);
        var r := Split(s);
        assert r[1..] == rest[1..];
        assert Join(r) == ([s[0]] + rest[0]) + "\n" + Join(rest[1..]);
        assert [s[0]] + s[1..] == s;
      } else if s[0] != '\n' {
        assert [s[0]] + s[1..] == s;
      } else {
        var r := Split(s);
        assert r[1..] == rest;
        assert [s[0]] + s[1..] == s;
      }
    }
  }

  lemma {:induction false} SplitNoNewline(p: string)
    requires '\n' !in p
    ensures Split(p) == [p]
    decreases |p|
  {
    if |p| > 0 {
      assert '\n' !in p[1..];
      SplitNoNewline(p[1..]);
      assert [p[0]] + p[1..] == p;
    }
  }

  lemma {:induction false} SplitPrefix(p: string, t: string)
    requires '\n' !in p
    ensures Split(p + "\n" + t) == [p] + Split(t)
    decreases |p|
  {
    var s := p + "\n" + t;
    if |p| == 0 {
      assert s[1..] == t;
    } else {
      assert s[1..] == p[1..] + "\n" + t;
      assert '\n' !in p[1..];
      SplitPrefix(p[1..], t);
      assert [p[0]] + p[1..] == p;
    }
  }

  lemma {:induction false} SplitJoin(parts: seq<string>)
    requires |parts| >= 1
    requires forall k :: 0 <= k < |parts| ==> '\n' !in parts[k]
    ensures Split(Join(parts)) == parts
    decreases |parts|
  {
    if |parts| == 1 {
      SplitNoNewline(parts[0]);
    } else {
      SplitJoin(parts[1..]);
      SplitPrefix(parts[0], Join(parts[1..]));
      assert [parts[0]] + parts[1..] == parts;
    }
  }

  lemma {:induction false} JoinAppend(parts: seq<string>, x: string)
    requires |parts| >= 1
    ensures Join(parts + [x]) == Join(parts) + "\n" + x
    decreases |parts|
  {
    if |parts| == 1 {
      assert (parts + [x])[1..] == [x];
    } else {
      assert (parts + [x])[1..] == parts[1..] + [x];
      JoinAppend(parts[1..], x);
    }
  }

  /** A line appended after a newline is one of the pieces str.split('\n') yields. */
  lemma AppendedLineIsSplitPiece(s: string, x: string)
    requires '\n' !in x
    ensures Split(s + "\n" + x) == Split(s) + [x]
  {
    var parts := Split(s) + [x];
    JoinSplit(s);
    JoinAppend(Split(s), x);
    SplitJoin(parts);
  }

  // ---------------------------------------------------------------------
  // str() and repr() of a configuration value

  /** Python's ordering of strings: code point by code point, a proper prefix first. */
  predicate LexLe(a: string, b: string) {
    |a| == 0 || (|b| > 0 && (a[0] < b[0] || (a[0] == b[0] && LexLe(a[1..], b[1..]))))
  }

  lemma {:induction false} LexLeReflexive(a: string)
    ensures LexLe(a, a)
  {
    if |a| > 0 {
      LexLeReflexive(a[1..]);
    }
  }

  lemma {:induction false} LexLeTotal(a: string, b: string)
    ensures LexLe(a, b) || LexLe(b, a)
  {
    if |a| > 0 && |b| > 0 && a[0] == b[0] {
      LexLeTotal(a[1..], b[1..]);
    }
  }

  lemma {:induction false} LexLeAntisymmetric(a: string, b: string)
    requires LexLe(a, b) && LexLe(b, a)
    ensures a == b
  {
    if |a| > 0 {
      LexLeAntisymmetric(a[1..], b[1..]);
      assert a == [a[0]] + a[1..] && b == [b[0]] + b[1..];
    }
  }

  lemma {:induction false} LexLeTransitive(a: string, b: string, c: string)
    requires LexLe(a, b) && LexLe(b, c)
    ensures LexLe(a, c)
  {
    if |a| > 0 && a[0] == b[0] && b[0] == c[0] {
      LexLeTransitive(a[1..], b[1..], c[1..]);
    }
  }

  /** Every non-empty finite set of strings has a least element. */
  lemma {:induction false} LeastExists(ks: set<string>)
    requires ks != {}
    ensures exists k :: k in ks && forall y | y in ks :: LexLe(k, y)
    decreases |ks|
  {
    var x :| x in ks;
    if ks == {x} {
      LexLeReflexive(x);
      assert x in ks && forall y | y in ks :: LexLe(x, y);
    } else {
      LeastExists(ks - {x});
      var k :| k in ks - {x} && forall y | y in ks - {x} :: LexLe(k, y);
      var m := LeastInsert(ks - {x}, x, k);
      assert ks - {x} + {x} == ks;
      assert m in ks && forall y | y in ks :: LexLe(m, y);
    }
  }

  /** The least element once one more string joins a set whose least is k. */
  lemma LeastInsert(rest: set<string>, x: string, k: string) returns (m: string)
    requires k in rest && forall y | y in rest :: LexLe(k, y)
    ensures m in rest + {x} && forall y | y in rest + {x} :: LexLe(m, y)
  {
    LexLeReflexive(x);
    LexLeTotal(x, k);
    if LexLe(x, k) {
      m := x;
      forall y | y in rest + {x}
        ensures LexLe(x, y)
      {
        if y != x {
          LexLeTransitive(x, k, y);
        }
      }
    } else {
      m := k;
    }
  }

  function Least(ks: set<string>): (k: string)
    requires ks != {}
    ensures k in ks && forall y | y in ks :: LexLe(k, y)
  {
    LeastExists(ks);
    assert forall a, b | a in ks && b in ks && (forall y | y in ks :: LexLe(a, y)) && (forall y | y in ks :: LexLe(b, y))
      :: a == b by {
      forall a, b | a in ks && b in ks && (forall y | y in ks :: LexLe(a, y)) && (forall y | y in ks :: LexLe(b, y))
        ensures a == b
      {
        LexLeAntisymmetric(a, b);
      }
    }
    var k :| k in ks && forall y | y in ks :: LexLe(k, y);
    k
  }

  /** The strings of a set in ascending order, each once. */
  function SortedKeys(ks: set<string>): (r: seq<string>)
    ensures |r| == |ks|
    ensures forall k :: k in r <==> k in ks
    ensures forall i | 0 < i < |r| :: LexLe(r[i - 1], r[i])
    decreases |ks|
  {
    if ks == {} then []
    else
      var k := Least(ks);
      var rest := SortedKeys(ks - {k});
      assert |rest| > 0 ==> rest[0] in ks;
      [k] + rest
  }

  /** repr() quotes a string with ' unless it holds a ' and no ". */
  function QuoteFor(s: string): char {
    if '\'' in s && '"' !in s then '"' else '\''
  }

  /** The escape repr() writes for one character inside quotes `q`. */
  function EscapeChar(c: char, q: char): string {
    if c == '\\' then "\\\\"
    else if c == q then ['\\', q]
    else if c == '\n' then "\\n"
    else if c == '\r' then "\\r"
    else if c == '\t' then "\\t"
    else [c]
  }

  function Escape(s: string, q: char): (r: string)
    ensures |r| >= |s|
  {
    if |s| == 0 then "" else EscapeChar(s[0], q) + Escape(s[1..], q)
  }

  /** repr() of a string. */
  function StrRepr(s: string): (r: string)
    ensures |r| >= |s| + 2 && r[0] == r[|r| - 1] == QuoteFor(s)
  {
    [QuoteFor(s)] + Escape(s, QuoteFor(s)) + [QuoteFor(s)]
  }

  /** repr() of a value; a mapping's entries are listed in ascending key order. */
  function Repr(v: Value): (r: string)
    ensures v.List? ==> |r| >= 2 && r[0] == '[' && r[|r| - 1] == ']'
    ensures v.Dict? ==> |r| >= 2 && r[0] == '{' && r[|r| - 1] == '}'
    ensures v.Str? ==> |r| >= 2 && r[0] == r[|r| - 1] && (r[0] == '\'' || r[0] == '"')
    decreases v, if v.Dict? then |v.entries| + 1 else 0
  {
    match v
    case Null => "None"
    case Bool(b) => if b then "True" else "False"
    case Int(i) => IntText(i)
    case Str(s) => StrRepr(s)
    case List(items) => "[" + ReprItems(items) + "]"
    case Dict(m) => "{" + ReprEntries(v, SortedKeys(m.Keys)) + "}"
  }

  /** ', '.join(repr(x) for x in items) */
  function ReprItems(items: seq<Value>): string
    decreases items
  {
    if |items| == 0 then ""
    else if |items| == 1 then Repr(items[0])
    else Repr(items[0]) + ", " + ReprItems(items[1..])
  }

  /** The `'key': value` entries of mapping `d` for the keys `ks`, comma separated. */
  function ReprEntries(d: Value, ks: seq<string>): string
    requires d.Dict? && |ks| <= |d.entries| && forall k | k in ks :: k in d.entries
    decreases d, |ks|
  {
    if |ks| == 0 then ""
    else
      var entry := StrRepr(ks[0]) + ": " + Repr(d.entries[ks[0]]);
      if |ks| == 1 then entry else entry + ", " + ReprEntries(d, ks[1..])
  }

  /** str() of a value: a string is itself, anything else its repr(). */
  function PyStr(v: Value): (r: string)
    ensures v.Str? ==> r == v.s
    ensures !v.Str? ==> r == Repr(v)
  {
    if v.Str? then v.s else Repr(v)
  }

  /** str() of the scalars a step list can hold. */
  lemma ScalarStrExamples()
    ensures PyStr(Str("echo hi")) == "echo hi"
    ensures PyStr(Int(-5)) == "-5"
    ensures PyStr(Null) == "None"
  {
  }

  /** str() of a list shows the repr() of each item. */
  lemma ListStrExamples()
    ensures PyStr(List([Int(1), Int(2)])) == "[1, 2]"
    ensures PyStr(List([Str("a"), Bool(true)])) == "['a', True]"
  {
  }

  /** str() of a mapping and of nested empty containers. */
  lemma DictStrExamples()
    ensures PyStr(Dict(map["a" := Int(1)])) == "{'a': 1}"
    ensures PyStr(List([List([]), Dict(map[])])) == "[[], {}]"
  {
  }

  /** repr() uses double quotes for a string holding only single quotes. */
  lemma QuoteExample()
    ensures PyStr(List([Str("it's")])) == "[\"it's\"]"
  {
    assert '\'' in "it's" && '"' !in "it's";
    assert Escape("it's", '"') == "it's";
  }

  /** repr() escapes a newline. */
  lemma EscapeExample()
    ensures PyStr(List([Str("a\nb")])) == "['a\\nb']"
  {
    assert '\'' !in "a\nb";
    assert Escape("a\nb", '\'') == "a\\nb";
  }
}
