/** The permission gate's verdict on a shell command (`tabit-gate/src/checker_bash.rs`,
    `path_permission.rs`, `types.rs`): per-path checks with the last matching override winning,
    collected over flags, options, positionals and redirects, and the strictest result winning. */
module Verdicts {
  import opened Wrappers
  import opened Sequences
  import opened Assoc
  import opened ArgParser

  datatype Action = Allow | Ask | Deny

  function Priority(a: Action): nat {
    match a
    case Allow => 0
    case Ask => 1
    case Deny => 2
  }

  function Stricter(a: Action, b: Action): Action {
    if Priority(a) >= Priority(b) then a else b
  }

  datatype CheckResult = CheckResult(action: Action, reason: Option<string>)

  const Allowed := CheckResult(Allow, None)

  // ---- aggregation

  function Strictest(results: seq<CheckResult>): Action {
    if results == [] then Allow else Stricter(Strictest(results[..|results| - 1]), results[|results| - 1].action)
  }

  /** The reasons in order of first appearance, each once. */
  function Reasons(results: seq<CheckResult>): (reasons: seq<string>)
    ensures forall r :: r in reasons <==> exists i :: 0 <= i < |results| && results[i].reason == Some(r)
  {
    if results == [] then []
    else
      var earlier, last := Reasons(results[..|results| - 1]), results[|results| - 1].reason;
      if last.Some? && last.value !in earlier then earlier + [last.value] else earlier
  }

  function Aggregate(results: seq<CheckResult>): CheckResult {
    CheckResult(Strictest(results), if Reasons(results) == [] then None else Some(Join(Reasons(results), "; ")))
  }

  method AggregateResults(results: seq<CheckResult>) returns (r: CheckResult)
    ensures r == Aggregate(results)
  {
    if results == [] {
      return Allowed;
    }
    var strictest := results[0].action;
    var seen: set<string> := {};
    var reasons: seq<string> := [];
    for i := 0 to |results|
      invariant strictest == Stricter(results[0].action, Strictest(results[..i]))
      invariant reasons == Reasons(results[..i]) && forall x :: x in seen <==> x in reasons
    {
      assert results[..i + 1][..i] == results[..i];
      var result := results[i];
      strictest := Stricter(strictest, result.action);
      if result.reason.Some? && result.reason.value !in seen {
        seen := seen + {result.reason.value};
        reasons := reasons + [result.reason.value];
      }
    }
    assert results[..|results|] == results;
    StrictestBounds(results, 0);
    r := CheckResult(strictest, if reasons == [] then None else Some(Join(reasons, "; ")));
  }

  /** The strictest action is at least as strict as every one. */
  lemma {:induction false} StrictestBounds(results: seq<CheckResult>, i: nat)
    requires i < |results|
    ensures Priority(Strictest(results)) >= Priority(results[i].action)
  {
    var n := |results| - 1;
    if i < n {
      StrictestBounds(results[..n], i);
    }
  }

  /** And it is one of them. */
  lemma {:induction false} StrictestIsAttained(results: seq<CheckResult>) returns (i: nat)
    requires results != []
    ensures i < |results| && Strictest(results) == results[i].action
  {
    var n := |results| - 1;
    if n == 0 || Strictest(results) == results[n].action {
      i := n;
      assert n == 0 ==> Strictest(results[..0]) == Allow;
    } else {
      i := StrictestIsAttained(results[..n]);
    }
  }

  /** Some result reaches a level. */
  ghost predicate Reaches(results: seq<CheckResult>, level: Action) {
    exists i :: 0 <= i < |results| && Priority(results[i].action) >= Priority(level)
  }

  lemma StrictestReachesIff(results: seq<CheckResult>, level: Action)
    requires level != Allow
    ensures Priority(Strictest(results)) >= Priority(level) <==> Reaches(results, level)
  {
    if results != [] {
      var j := StrictestIsAttained(results);
      if i :| 0 <= i < |results| && Priority(results[i].action) >= Priority(level) {
        StrictestBounds(results, i);
      }
    }
  }

  /** Order is no matter for the action. */
  lemma StrictestIgnoresOrder(a: seq<CheckResult>, b: seq<CheckResult>)
    requires multiset(a) == multiset(b)
    ensures Strictest(a) == Strictest(b)
  {
    if a == [] || b == [] {
      assert |multiset(a)| == |a| && |multiset(b)| == |b|;
    } else {
      var i := StrictestIsAttained(a);
      var j := StrictestIsAttained(b);
      assert a[i] in multiset(a) && b[j] in multiset(b);
      var i' :| 0 <= i' < |b| && b[i'] == a[i];
      var j' :| 0 <= j' < |a| && a[j'] == b[j];
      StrictestBounds(b, i');
      StrictestBounds(a, j');
    }
  }

  // ---- paths

  datatype Override = Override(patterns: seq<string>, result: CheckResult)

  datatype Section = Section(default: CheckResult, overrides: seq<Override>)

  /** The path side of the gate: normalization under a working directory, glob matching, and the test
      for words that clearly are no path. */
  datatype Paths = Paths(
    normalize: (string, string) -> string,
    glob: (string, string) -> bool,
    clearlyNot: string -> bool)

  /** The last pattern that matches, over all overrides in order, decides; else the default. */
  function PathVerdict(section: Section, matches: string -> bool): CheckResult {
    Decide(section.overrides, section.default, matches)
  }

  function Decide(overrides: seq<Override>, default: CheckResult, matches: string -> bool): CheckResult {
    if overrides == [] then default
    else
      var last := overrides[|overrides| - 1];
      if AnyMatch(last.patterns, matches) then last.result
      else Decide(overrides[..|overrides| - 1], default, matches)
  }

  predicate AnyMatch(patterns: seq<string>, matches: string -> bool) {
    exists i :: 0 <= i < |patterns| && matches(patterns[i])
  }

  method CheckPathPermission(path: string, cwd: string, section: Section, paths: Paths) returns (r: CheckResult)
    ensures r == PathVerdict(section, p => paths.glob(paths.normalize(path, cwd), p))
  {
    r := section.default;
    var normalized := paths.normalize(path, cwd);
    ghost var matches := p => paths.glob(paths.normalize(path, cwd), p);
    for i := 0 to |section.overrides|
      invariant r == Decide(section.overrides[..i], section.default, matches)
    {
      var rule := section.overrides[i];
      ghost var before := r;
      for j := 0 to |rule.patterns|
        invariant r == if AnyMatch(rule.patterns[..j], matches) then rule.result else before
      {
        assert forall k :: 0 <= k < j ==> rule.patterns[..j + 1][k] == rule.patterns[..j][k];
        assert rule.patterns[..j + 1][j] == rule.patterns[j];
        if paths.glob(normalized, rule.patterns[j]) {
          assert matches(rule.patterns[j]);
          r := rule.result;
        }
      }
      assert rule.patterns[..|rule.patterns|] == rule.patterns;
      assert section.overrides[..i + 1][..i] == section.overrides[..i];
    }
    assert section.overrides[..|section.overrides|] == section.overrides;
  }

  ghost predicate IsLastMatch(overrides: seq<Override>, k: nat, matches: string -> bool)
    requires k < |overrides|
  {
    && AnyMatch(overrides[k].patterns, matches)
    && forall l :: k < l < |overrides| ==> !AnyMatch(overrides[l].patterns, matches)
  }

  /** The last override with a matching pattern wins; nothing matching leaves the default. */
  lemma {:induction false} LastMatchWins(overrides: seq<Override>, default: CheckResult, matches: string -> bool)
    ensures (forall k :: 0 <= k < |overrides| ==> !AnyMatch(overrides[k].patterns, matches)) ==>
      Decide(overrides, default, matches) == default
    ensures forall k :: 0 <= k < |overrides| && IsLastMatch(overrides, k, matches) ==>
      Decide(overrides, default, matches) == overrides[k].result
  {
    if overrides != [] {
      var n := |overrides| - 1;
      var rest := overrides[..n];
      LastMatchWins(rest, default, matches);
      assert forall k :: 0 <= k < n ==> rest[k] == overrides[k];
      forall k | 0 <= k < |overrides| && IsLastMatch(overrides, k, matches)
        ensures Decide(overrides, default, matches) == overrides[k].result
      {
        if k < n {
          assert IsLastMatch(rest, k, matches);
        }
      }
    }
  }

  // ---- one command

  datatype FlagRule = FlagRule(flag: string, result: CheckResult)

  datatype PositionalRule = PositionalRule(default: seq<string>, overrides: map<int, seq<string>>)

  /** A command rule. `preCheck` is what evaluating its environment pre-checks yields. */
  datatype Rule = Rule(
    name: string,
    fallback: CheckResult,
    preCheck: Option<CheckResult>,
    flags: seq<FlagRule>,
    options: map<string, seq<string>>,
    positionals: Option<PositionalRule>)

  datatype Config = Config(defaultAction: Action, rules: seq<Rule>, read: Section, write: Section, cwd: string,
                           paths: Paths)

  datatype Redirect = Redirect(target: string, isInput: bool, isOutput: bool)

  datatype Command = Command(name: Option<string>, args: seq<string>, dynamic: set<nat>, cwd: string,
                             redirects: seq<Redirect>)

  function Normalized(cmd: Command): string {
    var name := if cmd.name.Some? then cmd.name.value else "";
    if cmd.args == [] then name else name + " " + Join(cmd.args, " ")
  }

  predicate MatchesPrefix(text: string, prefix: string) {
    prefix == "" || (prefix <= text && (|text| == |prefix| || text[|prefix|] == ' '))
  }

  /** The first rule whose name matches. */
  function FindRule(text: string, rules: seq<Rule>): Option<Rule> {
    if rules == [] then None
    else if MatchesPrefix(text, rules[0].name) then Some(rules[0])
    else FindRule(text, rules[1..])
  }

  function CwdOf(cmd: Command, config: Config): string {
    if cmd.cwd == "" then config.cwd else cmd.cwd
  }

  function ReadVerdict(path: string, cmd: Command, config: Config): CheckResult {
    var cwd := CwdOf(cmd, config);
    PathVerdict(config.read, p => config.paths.glob(config.paths.normalize(path, cwd), p))
  }

  function WriteVerdict(path: string, cmd: Command, config: Config): CheckResult {
    var cwd := CwdOf(cmd, config);
    PathVerdict(config.write, p => config.paths.glob(config.paths.normalize(path, cwd), p))
  }

  /** The verdict on one word under one permission: `delete` counts as writing, other words as nothing. */
  function PermissionVerdict(path: string, perm: string, cmd: Command, config: Config): CheckResult {
    if config.paths.clearlyNot(path) then Allowed
    else if perm == "read" then ReadVerdict(path, cmd, config)
    else if perm == "write" || perm == "delete" then WriteVerdict(path, cmd, config)
    else Allowed
  }

  function RedirectVerdict(r: Redirect, cmd: Command, config: Config): CheckResult {
    if r.isInput then ReadVerdict(r.target, cmd, config)
    else if r.isOutput then WriteVerdict(r.target, cmd, config)
    else Allowed
  }

  function DeclaredBy(rule: Rule): Declared {
    Declared(set i | 0 <= i < |rule.flags| :: rule.flags[i].flag, rule.options.Keys)
  }

  /** The permissions of positional `i` out of `count`: counted from the end first, then from the front. */
  function PermsOf(p: PositionalRule, i: nat, count: nat): seq<string>
    requires i < count
  {
    if i - count in p.overrides then p.overrides[i - count]
    else if i in p.overrides then p.overrides[i]
    else p.default
  }

  /** What a check adds to the results: nothing when it allows. */
  function Unless(r: CheckResult): seq<CheckResult> {
    if r.action == Allow then [] else [r]
  }

  function PermChecks(path: string, perms: seq<string>, cmd: Command, config: Config): seq<CheckResult> {
    if perms == [] then []
    else
      PermChecks(path, perms[..|perms| - 1], cmd, config)
      + Unless(PermissionVerdict(path, perms[|perms| - 1], cmd, config))
  }

  function FlagChecks(flags: seq<FlagRule>, found: set<string>): seq<CheckResult> {
    if flags == [] then []
    else
      var last := flags[|flags| - 1];
      FlagChecks(flags[..|flags| - 1], found) + (if last.flag in found then [last.result] else [])
  }

  function OptionChecks(options: Assoc<string, OptionValue>, rule: Rule, cmd: Command,
                        config: Config): seq<CheckResult> {
    if options == [] then []
    else
      var (name, entry) := options[|options| - 1];
      OptionChecks(options[..|options| - 1], rule, cmd, config)
      + (if entry.index in cmd.dynamic || name !in rule.options then []
         else PermChecks(entry.value, rule.options[name], cmd, config))
  }

  function PositionalChecks(ps: seq<(string, nat)>, n: nat, p: PositionalRule, cmd: Command,
                            config: Config): seq<CheckResult>
    requires n <= |ps|
  {
    if n == 0 then []
    else
      var (value, index) := ps[n - 1];
      PositionalChecks(ps, n - 1, p, cmd, config)
      + (if index in cmd.dynamic then [] else PermChecks(value, PermsOf(p, n - 1, |ps|), cmd, config))
  }

  function RedirectChecks(redirects: seq<Redirect>, cmd: Command, config: Config): seq<CheckResult> {
    if redirects == [] then []
    else
      RedirectChecks(redirects[..|redirects| - 1], cmd, config)
      + Unless(RedirectVerdict(redirects[|redirects| - 1], cmd, config))
  }

  /** Everything that fired for a command under its rule, in order. */
  function Fired(rule: Rule, cmd: Command, config: Config): seq<CheckResult> {
    var parsed := Parse(DeclaredBy(rule), cmd.args);
    (if rule.preCheck.Some? then [rule.preCheck.value] else [])
    + FlagChecks(rule.flags, parsed.flags)
    + OptionChecks(parsed.options, rule, cmd, config)
    + (if rule.positionals.Some?
       then PositionalChecks(parsed.positionals, |parsed.positionals|, rule.positionals.value, cmd, config) else [])
    + RedirectChecks(cmd.redirects, cmd, config)
  }

  function CommandVerdict(cmd: Command, config: Config): CheckResult {
    match FindRule(Normalized(cmd), config.rules)
    case None =>
      var results := RedirectChecks(cmd.redirects, cmd, config);
      if results == [] then CheckResult(config.defaultAction, None) else Aggregate(results)
    case Some(rule) =>
      var results := Fired(rule, cmd, config);
      if results == [] then rule.fallback else Aggregate(results)
  }

  method CheckRedirects(cmd: Command, config: Config) returns (results: seq<CheckResult>)
    ensures results == RedirectChecks(cmd.redirects, cmd, config)
  {
    results := [];
    for i := 0 to |cmd.redirects|
      invariant results == RedirectChecks(cmd.redirects[..i], cmd, config)
    {
      assert cmd.redirects[..i + 1][..i] == cmd.redirects[..i];
      var redirect := cmd.redirects[i];
      if redirect.isInput {
        var result := CheckPathPermission(redirect.target, CwdOf(cmd, config), config.read, config.paths);
        assert result == ReadVerdict(redirect.target, cmd, config);
        if result.action != Allow {
          results := results + [result];
        }
      } else if redirect.isOutput {
        var result := CheckPathPermission(redirect.target, CwdOf(cmd, config), config.write, config.paths);
        assert result == WriteVerdict(redirect.target, cmd, config);
        if result.action != Allow {
          results := results + [result];
        }
      }
    }
    assert cmd.redirects[..|cmd.redirects|] == cmd.redirects;
  }

  method CheckPerms(path: string, perms: seq<string>, cmd: Command, config: Config) returns (results: seq<CheckResult>)
    ensures results == PermChecks(path, perms, cmd, config)
  {
    results := [];
    for i := 0 to |perms|
      invariant results == PermChecks(path, perms[..i], cmd, config)
    {
      assert perms[..i + 1][..i] == perms[..i];
      var result := PermissionVerdict(path, perms[i], cmd, config);
      if result.action != Allow {
        results := results + [result];
      }
    }
    assert perms[..|perms|] == perms;
  }

  method CheckSingleCommand(cmd: Command, config: Config) returns (verdict: CheckResult)
    ensures verdict == CommandVerdict(cmd, config)
  {
    var found := FindRule(Normalized(cmd), config.rules);
    if found.None? {
      var redirected := CheckRedirects(cmd, config);
      if redirected == [] {
        return CheckResult(config.defaultAction, None);
      }
      verdict := AggregateResults(redirected);
      return;
    }
    var rule := found.value;
    // 1. Pre-checks.
    var results: seq<CheckResult> := if rule.preCheck.Some? then [rule.preCheck.value] else [];
    // 2. Parse.
    var parsed := ParseArgs(DeclaredBy(rule), cmd.args);
    // 3. to 6. Flags, options, positionals, redirects.
    var flagged := CheckFlags(rule.flags, parsed.flags);
    var optioned := CheckOptions(parsed.options, rule, cmd, config);
    var positioned: seq<CheckResult> := [];
    if rule.positionals.Some? {
      positioned := CheckPositionals(parsed.positionals, rule.positionals.value, cmd, config);
    }
    var redirected := CheckRedirects(cmd, config);
    results := results + flagged + optioned + positioned + redirected;
    // 7. The rule's fallback, when nothing fired.
    if results == [] {
      return rule.fallback;
    }
    verdict := AggregateResults(results);
  }

  method CheckFlags(flags: seq<FlagRule>, found: set<string>) returns (results: seq<CheckResult>)
    ensures results == FlagChecks(flags, found)
  {
    results := [];
    for i := 0 to |flags|
      invariant results == FlagChecks(flags[..i], found)
    {
      assert flags[..i + 1][..i] == flags[..i];
      if flags[i].flag in found {
        results := results + [flags[i].result];
      }
    }
    assert flags[..|flags|] == flags;
  }

  method CheckOptions(options: Assoc<string, OptionValue>, rule: Rule, cmd: Command, config: Config)
    returns (results: seq<CheckResult>)
    ensures results == OptionChecks(options, rule, cmd, config)
  {
    results := [];
    for i := 0 to |options|
      invariant results == OptionChecks(options[..i], rule, cmd, config)
    {
      assert options[..i + 1][..i] == options[..i];
      var (name, entry) := options[i];
      if entry.index in cmd.dynamic || name !in rule.options {
        continue;
      }
      var more := CheckPerms(entry.value, rule.options[name], cmd, config);
      results := results + more;
    }
    assert options[..|options|] == options;
  }

  lemma NoPermsNoChecks(cmd: Command, config: Config)
    ensures forall path :: PermChecks(path, [], cmd, config) == []
  {
  }

  method CheckPositionals(ps: seq<(string, nat)>, p: PositionalRule, cmd: Command, config: Config)
    returns (results: seq<CheckResult>)
    ensures results == PositionalChecks(ps, |ps|, p, cmd, config)
  {
    NoPermsNoChecks(cmd, config);
    hide PermsOf, PermChecks;
    results := [];
    for i := 0 to |ps|
      invariant results == PositionalChecks(ps, i, p, cmd, config)
    {
      var (value, index) := ps[i];
      var perms := PermsOf(p, i, |ps|);
      if perms == [] || index in cmd.dynamic {
        continue;
      }
      var more := CheckPerms(value, perms, cmd, config);
      results := results + more;
    }
  }

  // ---- the whole line

  /** What the walker makes of a command line: its syntax errors, and its commands. */
  datatype Walk = Walk(errors: seq<string>, commands: seq<Command>)

  function CommandVerdicts(commands: seq<Command>, config: Config): (r: seq<CheckResult>)
    ensures |r| == |commands|
    ensures forall i :: 0 <= i < |r| ==> r[i] == CommandVerdict(commands[i], config)
  {
    seq(|commands|, i requires 0 <= i < |commands| => CommandVerdict(commands[i], config))
  }

  lemma NoCommands(config: Config)
    ensures CommandVerdicts([], config) == []
  {
  }

  lemma CommandVerdictsStep(commands: seq<Command>, i: nat, config: Config)
    requires i < |commands|
    ensures CommandVerdicts(commands[..i + 1], config) ==
            CommandVerdicts(commands[..i], config) + [CommandVerdict(commands[i], config)]
  {
    hide CommandVerdict;
  }

  /** `None` stands for a blank line. */
  method CheckBash(line: Option<Walk>, config: Config) returns (verdict: CheckResult)
    ensures verdict == BashVerdict(line, config)
  {
    if line.None? {
      return Allowed;
    }
    if line.value.errors != [] {
      return CheckResult(Deny, Some("Invalid bash syntax: " + Join(line.value.errors, "; ")));
    }
    var commands := line.value.commands;
    var results: seq<CheckResult> := [];
    NoCommands(config);
    assert commands[..0] == [];
    for i := 0 to |commands|
      invariant results == CommandVerdicts(commands[..i], config)
    {
      CommandVerdictsStep(commands, i, config);
      var one := CheckSingleCommand(commands[i], config);
      results := results + [one];
    }
    assert commands[..|commands|] == commands;
    if results == [] {
      return Allowed;
    }
    verdict := AggregateResults(results);
  }

  function BashVerdict(line: Option<Walk>, config: Config): CheckResult {
    if line.None? then Allowed
    else if line.value.errors != [] then
      CheckResult(Deny, Some("Invalid bash syntax: " + Join(line.value.errors, "; ")))
    else if line.value.commands == [] then Allowed
    else Aggregate(CommandVerdicts(line.value.commands, config))
  }

  // ---- what the verdict covers

  /** A check of the command itself reaches the level: its pre-check, a flag it raises, or a path it
      names under a permission its rule attaches there. */
  ghost predicate CommandReaches(rule: Rule, cmd: Command, config: Config, level: Action) {
    || (rule.preCheck.Some? && AtLeast(rule.preCheck.value, level))
    || (exists f :: 0 <= f < |rule.flags| && FlagReaches(rule, cmd, level, f))
    || (exists name, perm {:trigger OptionReaches(rule, cmd, config, level, name, perm)} ::
          OptionReaches(rule, cmd, config, level, name, perm))
    || (exists k, perm {:trigger PositionalReaches(rule, cmd, config, level, k, perm)} ::
          PositionalReaches(rule, cmd, config, level, k, perm))
    || (exists k :: 0 <= k < |cmd.redirects| && AtLeast(RedirectVerdict(cmd.redirects[k], cmd, config), level))
  }

  predicate AtLeast(r: CheckResult, level: Action) {
    Priority(r.action) >= Priority(level)
  }

  ghost predicate FlagReaches(rule: Rule, cmd: Command, level: Action, f: nat)
    requires f < |rule.flags|
  {
    rule.flags[f].flag in Parse(DeclaredBy(rule), cmd.args).flags && AtLeast(rule.flags[f].result, level)
  }

  ghost predicate OptionReaches(rule: Rule, cmd: Command, config: Config, level: Action, name: string, perm: string) {
    var kept := Get(Parse(DeclaredBy(rule), cmd.args).options, name);
    && kept.Some? && kept.value.index !in cmd.dynamic && name in rule.options && perm in rule.options[name]
    && AtLeast(PermissionVerdict(kept.value.value, perm, cmd, config), level)
  }

  ghost predicate PositionalReaches(rule: Rule, cmd: Command, config: Config, level: Action, k: int, perm: string) {
    var ps := Parse(DeclaredBy(rule), cmd.args).positionals;
    && rule.positionals.Some? && 0 <= k < |ps| && ps[k].1 !in cmd.dynamic
    && perm in PermsOf(rule.positionals.value, k, |ps|)
    && AtLeast(PermissionVerdict(ps[k].0, perm, cmd, config), level)
  }

  lemma ReachesConcat(a: seq<CheckResult>, b: seq<CheckResult>, level: Action)
    ensures Reaches(a + b, level) <==> Reaches(a, level) || Reaches(b, level)
  {
    if i :| 0 <= i < |a| && AtLeast(a[i], level) {
      assert (a + b)[i] == a[i];
    }
    if i :| 0 <= i < |b| && AtLeast(b[i], level) {
      assert (a + b)[|a| + i] == b[i];
    }
    if i :| 0 <= i < |a + b| && AtLeast((a + b)[i], level) {
      if i < |a| { assert AtLeast(a[i], level); } else { assert AtLeast(b[i - |a|], level); }
    }
  }

  lemma UnlessReaches(r: CheckResult, level: Action)
    requires level != Allow
    ensures Reaches(Unless(r), level) <==> AtLeast(r, level)
  {
    if AtLeast(r, level) { assert Unless(r)[0] == r; }
  }

  lemma {:induction false} PermChecksReach(path: string, perms: seq<string>, cmd: Command, config: Config,
                                           level: Action)
    requires level != Allow
    ensures Reaches(PermChecks(path, perms, cmd, config), level) <==>
      exists perm :: perm in perms && AtLeast(PermissionVerdict(path, perm, cmd, config), level)
  {
    if perms != [] {
      var n := |perms| - 1;
      PermChecksReach(path, perms[..n], cmd, config, level);
      var last := PermissionVerdict(path, perms[n], cmd, config);
      UnlessReaches(last, level);
      ReachesConcat(PermChecks(path, perms[..n], cmd, config), Unless(last), level);
      assert perms == perms[..n] + [perms[n]];
    }
  }

  lemma {:induction false} FlagChecksReach(rule: Rule, cmd: Command, n: nat, level: Action)
    requires n <= |rule.flags|
    ensures Reaches(FlagChecks(rule.flags[..n], Parse(DeclaredBy(rule), cmd.args).flags), level) <==>
      exists f :: 0 <= f < n && FlagReaches(rule, cmd, level, f)
  {
    if n > 0 {
      var found := Parse(DeclaredBy(rule), cmd.args).flags;
      FlagChecksReach(rule, cmd, n - 1, level);
      assert rule.flags[..n][..n - 1] == rule.flags[..n - 1];
      var last := if rule.flags[n - 1].flag in found then [rule.flags[n - 1].result] else [];
      ReachesConcat(FlagChecks(rule.flags[..n - 1], found), last, level);
      assert Reaches(last, level) <==> FlagReaches(rule, cmd, level, n - 1) by {
        if FlagReaches(rule, cmd, level, n - 1) { assert AtLeast(last[0], level); }
      }
    }
  }

  lemma {:induction false} RedirectChecksReach(redirects: seq<Redirect>, cmd: Command, config: Config, level: Action)
    requires level != Allow
    ensures Reaches(RedirectChecks(redirects, cmd, config), level) <==>
      exists k :: 0 <= k < |redirects| && AtLeast(RedirectVerdict(redirects[k], cmd, config), level)
  {
    if redirects != [] {
      var n := |redirects| - 1;
      RedirectChecksReach(redirects[..n], cmd, config, level);
      var last := RedirectVerdict(redirects[n], cmd, config);
      UnlessReaches(last, level);
      ReachesConcat(RedirectChecks(redirects[..n], cmd, config), Unless(last), level);
      assert forall k :: 0 <= k < n ==> redirects[..n][k] == redirects[k];
    }
  }

  /** Option entry `i` of the parse reaches the level. */
  ghost predicate EntryReaches(options: Assoc<string, OptionValue>, rule: Rule, cmd: Command, config: Config,
                               level: Action, i: nat)
    requires i < |options|
  {
    var (name, entry) := options[i];
    entry.index !in cmd.dynamic && name in rule.options &&
    exists perm :: perm in rule.options[name] && AtLeast(PermissionVerdict(entry.value, perm, cmd, config), level)
  }

  lemma {:induction false} OptionChecksReach(options: Assoc<string, OptionValue>, n: nat, rule: Rule, cmd: Command,
                                             config: Config, level: Action)
    requires level != Allow && n <= |options|
    ensures Reaches(OptionChecks(options[..n], rule, cmd, config), level) <==>
      exists i :: 0 <= i < n && EntryReaches(options, rule, cmd, config, level, i)
  {
    hide PermissionVerdict;
    if n > 0 {
      OptionChecksReach(options, n - 1, rule, cmd, config, level);
      assert options[..n][..n - 1] == options[..n - 1];
      var (name, entry) := options[n - 1];
      var last := if entry.index in cmd.dynamic || name !in rule.options then []
                  else PermChecks(entry.value, rule.options[name], cmd, config);
      if entry.index !in cmd.dynamic && name in rule.options {
        PermChecksReach(entry.value, rule.options[name], cmd, config, level);
      }
      assert Reaches(last, level) <==> EntryReaches(options, rule, cmd, config, level, n - 1);
      ReachesConcat(OptionChecks(options[..n - 1], rule, cmd, config), last, level);
    }
  }

  lemma {:induction false} PositionalChecksReach(rule: Rule, n: nat, cmd: Command, config: Config, level: Action)
    requires level != Allow && rule.positionals.Some? && n <= |Parse(DeclaredBy(rule), cmd.args).positionals|
    ensures var ps := Parse(DeclaredBy(rule), cmd.args).positionals;
      Reaches(PositionalChecks(ps, n, rule.positionals.value, cmd, config), level) <==>
      exists k, perm {:trigger PositionalReaches(rule, cmd, config, level, k, perm)} ::
        0 <= k < n && PositionalReaches(rule, cmd, config, level, k, perm)
  {
    hide PermissionVerdict, PermsOf, Parse, Reaches, PermChecks, PositionalReaches;
    if n == 0 {
      NothingReaches(level);
    } else {
      var ps, p := Parse(DeclaredBy(rule), cmd.args).positionals, rule.positionals.value;
      PositionalChecksReach(rule, n - 1, cmd, config, level);
      var (value, index) := ps[n - 1];
      var perms := PermsOf(p, n - 1, |ps|);
      var last := if index in cmd.dynamic then [] else PermChecks(value, perms, cmd, config);
      ReachesConcat(PositionalChecks(ps, n - 1, p, cmd, config), last, level);
      PositionalEntry(rule, n - 1, cmd, config, level);
    }
  }

  lemma NothingReaches(level: Action)
    ensures !Reaches([], level)
  {
  }

  lemma PositionalEntry(rule: Rule, k: nat, cmd: Command, config: Config, level: Action)
    requires level != Allow && rule.positionals.Some? && k < |Parse(DeclaredBy(rule), cmd.args).positionals|
    ensures var ps := Parse(DeclaredBy(rule), cmd.args).positionals;
      var perms := PermsOf(rule.positionals.value, k, |ps|);
      Reaches(if ps[k].1 in cmd.dynamic then [] else PermChecks(ps[k].0, perms, cmd, config), level) <==>
      exists perm {:trigger PositionalReaches(rule, cmd, config, level, k, perm)} ::
        PositionalReaches(rule, cmd, config, level, k, perm)
  {
    var ps := Parse(DeclaredBy(rule), cmd.args).positionals;
    var perms := PermsOf(rule.positionals.value, k, |ps|);
    PermChecksReach(ps[k].0, perms, cmd, config, level);
    forall perm
      ensures PositionalReaches(rule, cmd, config, level, k, perm) <==>
        ps[k].1 !in cmd.dynamic && perm in perms && AtLeast(PermissionVerdict(ps[k].0, perm, cmd, config), level)
    {
    }
  }

  /** Among kept options, going by entry or by name is the same. */
  lemma EntriesByName(rule: Rule, cmd: Command, config: Config, level: Action)
    ensures var options := Parse(DeclaredBy(rule), cmd.args).options;
      (exists i :: 0 <= i < |options| && EntryReaches(options, rule, cmd, config, level, i)) <==>
      (exists name, perm {:trigger OptionReaches(rule, cmd, config, level, name, perm)} ::
         OptionReaches(rule, cmd, config, level, name, perm))
  {
    var d := DeclaredBy(rule);
    var options := Parse(d, cmd.args).options;
    OptionsDistinct(d, cmd.args, |cmd.args|);
    if i :| 0 <= i < |options| && EntryReaches(options, rule, cmd, config, level, i) {
      GetListed(options, i);
      var (name, entry) := options[i];
      var perm :| perm in rule.options[name] && AtLeast(PermissionVerdict(entry.value, perm, cmd, config), level);
      assert OptionReaches(rule, cmd, config, level, name, perm);
    }
    if name, perm {:trigger OptionReaches(rule, cmd, config, level, name, perm)} :|
      OptionReaches(rule, cmd, config, level, name, perm) {
      HasIffListed(options, name);
      var i :| 0 <= i < |options| && options[i] == (name, Get(options, name).value);
      assert EntryReaches(options, rule, cmd, config, level, i);
    }
  }

  /** Exactly which commands are asked about or denied: those where some check reaches the level, or
      where no check fired at all and the rule's fallback reaches it. */
  lemma CommandVerdictIff(cmd: Command, config: Config, level: Action, rule: Rule)
    requires level != Allow && FindRule(Normalized(cmd), config.rules) == Some(rule)
    ensures AtLeast(CommandVerdict(cmd, config), level) <==>
      CommandReaches(rule, cmd, config, level) || (Fired(rule, cmd, config) == [] && AtLeast(rule.fallback, level))
  {
    FiredReachesIff(rule, cmd, config, level);
    StrictestReachesIff(Fired(rule, cmd, config), level);
  }

  lemma ReachesConcatAll(a: seq<CheckResult>, b: seq<CheckResult>, c: seq<CheckResult>, d: seq<CheckResult>,
                         e: seq<CheckResult>, level: Action)
    ensures Reaches(a + b + c + d + e, level) <==>
      Reaches(a, level) || Reaches(b, level) || Reaches(c, level) || Reaches(d, level) || Reaches(e, level)
  {
    ReachesConcat(a, b, level);
    ReachesConcat(a + b, c, level);
    ReachesConcat(a + b + c, d, level);
    ReachesConcat(a + b + c + d, e, level);
  }

  lemma PreCheckReaches(rule: Rule, level: Action)
    ensures Reaches(if rule.preCheck.Some? then [rule.preCheck.value] else [], level) <==>
            rule.preCheck.Some? && AtLeast(rule.preCheck.value, level)
  {
    if rule.preCheck.Some? {
      var pre := [rule.preCheck.value];
      assert pre[0] == rule.preCheck.value;
    }
  }

  lemma PositionalsReach(rule: Rule, cmd: Command, config: Config, level: Action)
    requires level != Allow
    ensures var ps := Parse(DeclaredBy(rule), cmd.args).positionals;
      Reaches(if rule.positionals.Some? then PositionalChecks(ps, |ps|, rule.positionals.value, cmd, config)
              else [], level)
      <==> exists k, perm {:trigger PositionalReaches(rule, cmd, config, level, k, perm)} ::
             PositionalReaches(rule, cmd, config, level, k, perm)
  {
    if rule.positionals.Some? {
      PositionalChecksReach(rule, |Parse(DeclaredBy(rule), cmd.args).positionals|, cmd, config, level);
    }
  }

  lemma FiredReachesIff(rule: Rule, cmd: Command, config: Config, level: Action)
    requires level != Allow
    ensures Reaches(Fired(rule, cmd, config), level) <==> CommandReaches(rule, cmd, config, level)
  {
    hide Reaches, AtLeast, Parse, FlagChecks, FlagReaches, OptionChecks, OptionReaches, EntryReaches,
         PositionalChecks, PositionalReaches, RedirectChecks, RedirectVerdict;
    var parsed := Parse(DeclaredBy(rule), cmd.args);
    ReachesConcatAll(
      if rule.preCheck.Some? then [rule.preCheck.value] else [], FlagChecks(rule.flags, parsed.flags),
      OptionChecks(parsed.options, rule, cmd, config),
      if rule.positionals.Some?
      then PositionalChecks(parsed.positionals, |parsed.positionals|, rule.positionals.value, cmd, config) else [],
      RedirectChecks(cmd.redirects, cmd, config), level);
    PreCheckReaches(rule, level);
    assert rule.flags[..|rule.flags|] == rule.flags && parsed.options[..|parsed.options|] == parsed.options;
    FlagChecksReach(rule, cmd, |rule.flags|, level);
    OptionChecksReach(parsed.options, |parsed.options|, rule, cmd, config, level);
    EntriesByName(rule, cmd, config, level);
    PositionalsReach(rule, cmd, config, level);
    RedirectChecksReach(cmd.redirects, cmd, config, level);
  }

  /** A command no rule matches is judged by its redirects, and by the default when none objects. */
  lemma UnruledVerdictIff(cmd: Command, config: Config, level: Action)
    requires level != Allow && FindRule(Normalized(cmd), config.rules).None?
    ensures AtLeast(CommandVerdict(cmd, config), level) <==>
      || (exists k :: 0 <= k < |cmd.redirects| && AtLeast(RedirectVerdict(cmd.redirects[k], cmd, config), level))
      || ((forall k :: 0 <= k < |cmd.redirects| ==> RedirectVerdict(cmd.redirects[k], cmd, config).action == Allow)
          && Priority(config.defaultAction) >= Priority(level))
  {
    RedirectChecksReach(cmd.redirects, cmd, config, level);
    StrictestReachesIff(RedirectChecks(cmd.redirects, cmd, config), level);
    NoRedirectFires(cmd.redirects, cmd, config);
  }

  lemma {:induction false} NoRedirectFires(redirects: seq<Redirect>, cmd: Command, config: Config)
    ensures RedirectChecks(redirects, cmd, config) == [] <==>
      forall k :: 0 <= k < |redirects| ==> RedirectVerdict(redirects[k], cmd, config).action == Allow
  {
    if redirects != [] {
      var n := |redirects| - 1;
      NoRedirectFires(redirects[..n], cmd, config);
      assert forall k :: 0 <= k < n ==> redirects[..n][k] == redirects[k];
    }
  }

  /** The verdict on a line reaches a level exactly when some command of it does. */
  lemma BashVerdictIff(walk: Walk, config: Config, level: Action)
    requires level != Allow && walk.errors == []
    ensures AtLeast(BashVerdict(Some(walk), config), level) <==>
      exists i :: 0 <= i < |walk.commands| && AtLeast(CommandVerdict(walk.commands[i], config), level)
  {
    var verdicts := CommandVerdicts(walk.commands, config);
    StrictestReachesIff(verdicts, level);
    if i :| 0 <= i < |walk.commands| && AtLeast(CommandVerdict(walk.commands[i], config), level) {
      assert AtLeast(verdicts[i], level);
    }
  }

  /** A path verdict anywhere on the line binds the whole line. */
  lemma BashIsAsStrictAsItsPaths(walk: Walk, config: Config, i: nat, level: Action, rule: Rule)
    requires level != Allow && walk.errors == [] && i < |walk.commands|
    requires FindRule(Normalized(walk.commands[i]), config.rules) == Some(rule)
    requires CommandReaches(rule, walk.commands[i], config, level)
    ensures AtLeast(BashVerdict(Some(walk), config), level)
  {
    CommandVerdictIff(walk.commands[i], config, level, rule);
    BashVerdictIff(walk, config, level);
  }

  lemma LevelIgnoresOrder(a: seq<Command>, b: seq<Command>, config: Config, level: Action)
    requires multiset(a) == multiset(b) && level != Allow
    ensures AtLeast(BashVerdict(Some(Walk([], a)), config), level) <==>
      AtLeast(BashVerdict(Some(Walk([], b)), config), level)
  {
    BashVerdictIff(Walk([], a), config, level);
    BashVerdictIff(Walk([], b), config, level);
    ReachedElsewhere(a, b, config, level);
    ReachedElsewhere(b, a, config, level);
  }

  /** The order of the commands on a line does not change its action. */
  lemma BashVerdictIgnoresOrder(a: seq<Command>, b: seq<Command>, config: Config)
    requires multiset(a) == multiset(b)
    ensures BashVerdict(Some(Walk([], a)), config).action == BashVerdict(Some(Walk([], b)), config).action
  {
    LevelIgnoresOrder(a, b, config, Ask);
    LevelIgnoresOrder(a, b, config, Deny);
  }

  lemma ReachedElsewhere(a: seq<Command>, b: seq<Command>, config: Config, level: Action)
    requires multiset(a) == multiset(b)
    ensures (exists i :: 0 <= i < |a| && AtLeast(CommandVerdict(a[i], config), level)) ==>
      exists j :: 0 <= j < |b| && AtLeast(CommandVerdict(b[j], config), level)
  {
    if i :| 0 <= i < |a| && AtLeast(CommandVerdict(a[i], config), level) {
      assert a[i] in multiset(a) && a[i] in multiset(b);
      var j :| 0 <= j < |b| && b[j] == a[i];
    }
  }
}
