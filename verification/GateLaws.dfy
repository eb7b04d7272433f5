/** The gate's verdict on a whole line, said of the rule book's own sections, rules and patterns and of the
    words on the line (`tabit-gate/src/checker_bash.rs`, `path_permission.rs`). */
module GateLaws {
  import opened Wrappers
  import opened Sequences
  import opened Assoc
  import opened ArgParser
  import opened Verdicts

  // ---- levels

  /** The action is at least as strict as the level: a denial is stricter than a question, a question than
      leave. */
  predicate Meets(a: Action, level: Action) {
    a == level || a == Deny || level == Allow
  }

  lemma MeetsIff(r: CheckResult, level: Action)
    ensures AtLeast(r, level) <==> Meets(r.action, level)
  {
  }

  // ---- sections

  /** A pattern of the override matches the path, normalized under the working directory. */
  predicate Hits(o: Override, path: string, cwd: string, paths: Paths) {
    exists i :: 0 <= i < |o.patterns| && paths.glob(paths.normalize(path, cwd), o.patterns[i])
  }

  /** The last override that hits the path says what may happen to it; else the section's default does. */
  ghost predicate Rules(section: Section, path: string, cwd: string, paths: Paths, r: CheckResult) {
    || (exists k :: && 0 <= k < |section.overrides| && r == section.overrides[k].result
                    && Hits(section.overrides[k], path, cwd, paths)
                    && forall l :: k < l < |section.overrides| ==> !Hits(section.overrides[l], path, cwd, paths))
    || (r == section.default && forall k :: 0 <= k < |section.overrides| ==>
          !Hits(section.overrides[k], path, cwd, paths))
  }

  /** What the section says of the path, under the command's own working directory where it has one, meets
      the level. */
  ghost predicate SectionMeets(section: Section, path: string, cmd: Command, config: Config, level: Action) {
    exists r :: Rules(section, path, if cmd.cwd == "" then config.cwd else cmd.cwd, config.paths, r)
                && Meets(r.action, level)
  }

  lemma {:induction false} LastHit(overrides: seq<Override>, path: string, cwd: string, paths: Paths) returns (k: int)
    ensures -1 <= k < |overrides| && (k >= 0 ==> Hits(overrides[k], path, cwd, paths))
    ensures forall l :: k < l < |overrides| ==> !Hits(overrides[l], path, cwd, paths)
  {
    if overrides == [] {
      k := -1;
    } else {
      var n := |overrides| - 1;
      if Hits(overrides[n], path, cwd, paths) {
        k := n;
      } else {
        k := LastHit(overrides[..n], path, cwd, paths);
      }
    }
  }

  lemma PathVerdictRules(section: Section, path: string, cwd: string, paths: Paths, r: CheckResult)
    ensures Rules(section, path, cwd, paths, r) <==>
            r == PathVerdict(section, p => paths.glob(paths.normalize(path, cwd), p))
  {
    var matches := p => paths.glob(paths.normalize(path, cwd), p);
    forall k | 0 <= k < |section.overrides|
      ensures AnyMatch(section.overrides[k].patterns, matches) <==> Hits(section.overrides[k], path, cwd, paths)
    {
      HitIsMatch(section.overrides[k], path, cwd, paths);
    }
    hide Hits, AnyMatch, Decide;
    LastMatchWins(section.overrides, section.default, matches);
    var k := LastHit(section.overrides, path, cwd, paths);
    assert k >= 0 ==> IsLastMatch(section.overrides, k, matches);
  }

  lemma HitIsMatch(o: Override, path: string, cwd: string, paths: Paths)
    ensures AnyMatch(o.patterns, p => paths.glob(paths.normalize(path, cwd), p)) <==> Hits(o, path, cwd, paths)
  {
    var matches := p => paths.glob(paths.normalize(path, cwd), p);
    assert forall i :: 0 <= i < |o.patterns| ==>
      matches(o.patterns[i]) == paths.glob(paths.normalize(path, cwd), o.patterns[i]);
  }

  lemma SectionsMeetIff(path: string, cmd: Command, config: Config, level: Action)
    ensures AtLeast(ReadVerdict(path, cmd, config), level) <==> SectionMeets(config.read, path, cmd, config, level)
    ensures AtLeast(WriteVerdict(path, cmd, config), level) <==> SectionMeets(config.write, path, cmd, config, level)
  {
    hide Rules, PathVerdict, AtLeast, Meets;
    var cwd := if cmd.cwd == "" then config.cwd else cmd.cwd;
    var read, write := ReadVerdict(path, cmd, config), WriteVerdict(path, cmd, config);
    forall r
      ensures Rules(config.read, path, cwd, config.paths, r) <==> r == read
      ensures Rules(config.write, path, cwd, config.paths, r) <==> r == write
    {
      PathVerdictRules(config.read, path, cwd, config.paths, r);
      PathVerdictRules(config.write, path, cwd, config.paths, r);
    }
    MeetsIff(read, level);
    MeetsIff(write, level);
  }

  // ---- words and redirects

  /** A word that may be a path, judged under a permission: `delete` is writing, and other permissions mean
      nothing. */
  ghost predicate WordMeets(word: string, perm: string, cmd: Command, config: Config, level: Action) {
    && !config.paths.clearlyNot(word)
    && ((perm == "read" && SectionMeets(config.read, word, cmd, config, level))
        || ((perm == "write" || perm == "delete") && SectionMeets(config.write, word, cmd, config, level)))
  }

  /** What is redirected in is read, what is redirected out is written. */
  ghost predicate RedirectMeets(r: Redirect, cmd: Command, config: Config, level: Action) {
    if r.isInput then SectionMeets(config.read, r.target, cmd, config, level)
    else r.isOutput && SectionMeets(config.write, r.target, cmd, config, level)
  }

  lemma WordMeetsIff(word: string, perm: string, cmd: Command, config: Config, level: Action)
    requires level != Allow
    ensures AtLeast(PermissionVerdict(word, perm, cmd, config), level) <==> WordMeets(word, perm, cmd, config, level)
  {
    SectionsMeetIff(word, cmd, config, level);
    hide SectionMeets, ReadVerdict, WriteVerdict;
  }

  lemma RedirectMeetsIff(r: Redirect, cmd: Command, config: Config, level: Action)
    requires level != Allow
    ensures AtLeast(RedirectVerdict(r, cmd, config), level) <==> RedirectMeets(r, cmd, config, level)
  {
    SectionsMeetIff(r.target, cmd, config, level);
    hide SectionMeets, ReadVerdict, WriteVerdict;
  }

  // ---- the rule

  /** The command as one text: its name and its arguments, a blank between each two. */
  function Spoken(cmd: Command): string {
    Join([if cmd.name.Some? then cmd.name.value else ""] + cmd.args, " ")
  }

  /** The rule's name is empty, or the text, or the text begins with it and a blank. */
  predicate Covers(name: string, text: string) {
    name == "" || name == text || name + " " <= text
  }

  predicate FirstCovers(rules: seq<Rule>, text: string, k: nat) {
    k < |rules| && Covers(rules[k].name, text) && forall j :: 0 <= j < k ==> !Covers(rules[j].name, text)
  }

  ghost predicate Uncovered(rules: seq<Rule>, text: string) {
    forall k :: 0 <= k < |rules| ==> !Covers(rules[k].name, text)
  }

  lemma CoversIff(name: string, text: string)
    ensures MatchesPrefix(text, name) <==> Covers(name, text)
  {
    if name <= text && |name| < |text| {
      assert name + [text[|name|]] <= text;
    }
  }

  lemma {:induction false} FoundIsFirst(rules: seq<Rule>, text: string)
    ensures FindRule(text, rules).None? <==> Uncovered(rules, text)
    ensures FindRule(text, rules).Some? ==>
      exists k: nat :: FirstCovers(rules, text, k) && FindRule(text, rules) == Some(rules[k])
  {
    hide Covers, MatchesPrefix;
    if rules != [] {
      CoversIff(rules[0].name, text);
      var rest := rules[1..];
      if Covers(rules[0].name, text) {
        assert FirstCovers(rules, text, 0);
      } else {
        FoundIsFirst(rest, text);
        assert forall k :: 0 <= k < |rest| ==> rest[k] == rules[k + 1];
        assert forall k :: 1 <= k < |rules| ==> rules[k] == rest[k - 1];
        if FindRule(text, rest).Some? {
          var k: nat :| FirstCovers(rest, text, k) && FindRule(text, rest) == Some(rest[k]);
          assert FirstCovers(rules, text, k + 1);
        }
      }
    }
  }

  lemma SpokenIs(cmd: Command)
    ensures Normalized(cmd) == Spoken(cmd)
  {
    var name := if cmd.name.Some? then cmd.name.value else "";
    assert ([name] + cmd.args)[1..] == cmd.args;
  }

  // ---- one command

  /** What a rule declares: the names of its flags and of its options. */
  ghost predicate Declares(rule: Rule, d: Declared) {
    && (forall name :: name in d.flags <==> exists i :: 0 <= i < |rule.flags| && rule.flags[i].flag == name)
    && (forall name :: name in d.options <==> name in rule.options)
  }

  lemma DeclaresOne(rule: Rule, d: Declared)
    ensures Declares(rule, d) <==> d == DeclaredBy(rule)
  {
    var own := DeclaredBy(rule);
    if Declares(rule, d) {
      assert d.flags == own.flags && d.options == own.options;
    }
  }

  /** The permissions of operand `k` out of `count`: under its index from the end, else under its index, else
      the default. */
  predicate Permitted(p: PositionalRule, k: int, count: nat, perms: seq<string>) {
    if k - count in p.overrides then perms == p.overrides[k - count]
    else if k in p.overrides then perms == p.overrides[k]
    else perms == p.default
  }

  /** A flag of the rule's list is raised. */
  predicate FlagFires(rule: Rule, parsed: ParsedArgs, f: int) {
    0 <= f < |rule.flags| && rule.flags[f].flag in parsed.flags
  }

  /** The value kept for an option is a path under one of the option's permissions; what the shell computes
      is not looked at. */
  ghost predicate OptionMeets(rule: Rule, parsed: ParsedArgs, cmd: Command, config: Config, level: Action,
                              name: string, perm: string) {
    var kept := Get(parsed.options, name);
    && kept.Some? && kept.value.index !in cmd.dynamic && name in rule.options && perm in rule.options[name]
    && WordMeets(kept.value.value, perm, cmd, config, level)
  }

  ghost predicate OperandMeets(rule: Rule, parsed: ParsedArgs, cmd: Command, config: Config, level: Action,
                               k: int, perm: string) {
    var ps := parsed.positionals;
    && rule.positionals.Some? && 0 <= k < |ps| && ps[k].1 !in cmd.dynamic
    && (exists perms :: Permitted(rule.positionals.value, k, |ps|, perms) && perm in perms)
    && WordMeets(ps[k].0, perm, cmd, config, level)
  }

  /** Some word or redirect of the command meets the level. */
  ghost predicate PathMeets(rule: Rule, parsed: ParsedArgs, cmd: Command, config: Config, level: Action) {
    || (exists name, perm {:trigger OptionMeets(rule, parsed, cmd, config, level, name, perm)} ::
          OptionMeets(rule, parsed, cmd, config, level, name, perm))
    || (exists k, perm {:trigger OperandMeets(rule, parsed, cmd, config, level, k, perm)} ::
          OperandMeets(rule, parsed, cmd, config, level, k, perm))
    || (exists k :: 0 <= k < |cmd.redirects| && RedirectMeets(cmd.redirects[k], cmd, config, level))
  }

  /** Under its rule a command meets the level when its pre-check, a raised flag, or a path does; and when
      there is no pre-check to answer, no flag is raised and no path is objected to, when the rule's own
      action does. */
  ghost predicate RuleMeets(rule: Rule, parsed: ParsedArgs, cmd: Command, config: Config, level: Action) {
    || (rule.preCheck.Some? && Meets(rule.preCheck.value.action, level))
    || (exists f :: FlagFires(rule, parsed, f) && Meets(rule.flags[f].result.action, level))
    || PathMeets(rule, parsed, cmd, config, level)
    || (rule.preCheck.None? && (forall f :: !FlagFires(rule, parsed, f)) && !PathMeets(rule, parsed, cmd, config, Ask)
        && Meets(rule.fallback.action, level))
  }

  /** Without a rule the redirects decide, and where none is objected to, the default action. */
  ghost predicate UnruledMeets(cmd: Command, config: Config, level: Action) {
    || (exists k :: 0 <= k < |cmd.redirects| && RedirectMeets(cmd.redirects[k], cmd, config, level))
    || ((forall k :: 0 <= k < |cmd.redirects| ==> !RedirectMeets(cmd.redirects[k], cmd, config, Ask))
        && Meets(config.defaultAction, level))
  }

  /** The command meets the level: under the first rule that covers it, or under none. */
  ghost predicate CommandMeets(cmd: Command, config: Config, level: Action) {
    || (exists k: nat, d ::
          FirstCovers(config.rules, Spoken(cmd), k) && Declares(config.rules[k], d)
          && RuleMeets(config.rules[k], Parse(d, cmd.args), cmd, config, level))
    || (Uncovered(config.rules, Spoken(cmd)) && UnruledMeets(cmd, config, level))
  }

  lemma OptionMeetsIff(rule: Rule, cmd: Command, config: Config, level: Action, name: string, perm: string)
    requires level != Allow
    ensures OptionReaches(rule, cmd, config, level, name, perm) <==>
            OptionMeets(rule, Parse(DeclaredBy(rule), cmd.args), cmd, config, level, name, perm)
  {
    hide Parse, WordMeets, PermissionVerdict, AtLeast, Get;
    var kept := Get(Parse(DeclaredBy(rule), cmd.args).options, name);
    if kept.Some? {
      WordMeetsIff(kept.value.value, perm, cmd, config, level);
    }
  }

  lemma OperandMeetsIff(rule: Rule, cmd: Command, config: Config, level: Action, k: int, perm: string)
    requires level != Allow
    ensures PositionalReaches(rule, cmd, config, level, k, perm) <==>
            OperandMeets(rule, Parse(DeclaredBy(rule), cmd.args), cmd, config, level, k, perm)
  {
    hide Parse, WordMeets, PermissionVerdict, AtLeast;
    var ps := Parse(DeclaredBy(rule), cmd.args).positionals;
    if rule.positionals.Some? && 0 <= k < |ps| {
      WordMeetsIff(ps[k].0, perm, cmd, config, level);
      PermittedOnce(rule.positionals.value, k, |ps|);
    }
  }

  lemma PermittedOnce(p: PositionalRule, k: nat, count: nat)
    requires k < count
    ensures forall perms :: Permitted(p, k, count, perms) <==> perms == PermsOf(p, k, count)
  {
  }

  /** The paths of a command as the gate's own checks see them. */
  ghost predicate PathReaches(rule: Rule, cmd: Command, config: Config, level: Action) {
    || (exists name, perm {:trigger OptionReaches(rule, cmd, config, level, name, perm)} ::
          OptionReaches(rule, cmd, config, level, name, perm))
    || (exists k, perm {:trigger PositionalReaches(rule, cmd, config, level, k, perm)} ::
          PositionalReaches(rule, cmd, config, level, k, perm))
    || (exists k :: 0 <= k < |cmd.redirects| && AtLeast(RedirectVerdict(cmd.redirects[k], cmd, config), level))
  }

  lemma PathMeetsIff(rule: Rule, cmd: Command, config: Config, level: Action)
    requires level != Allow
    ensures PathReaches(rule, cmd, config, level) <==>
            PathMeets(rule, Parse(DeclaredBy(rule), cmd.args), cmd, config, level)
  {
    hide Parse, OptionReaches, OptionMeets, PositionalReaches, OperandMeets, RedirectMeets, RedirectVerdict, AtLeast;
    forall name, perm
      ensures OptionReaches(rule, cmd, config, level, name, perm) <==>
              OptionMeets(rule, Parse(DeclaredBy(rule), cmd.args), cmd, config, level, name, perm)
    {
      OptionMeetsIff(rule, cmd, config, level, name, perm);
    }
    forall k, perm
      ensures PositionalReaches(rule, cmd, config, level, k, perm) <==>
              OperandMeets(rule, Parse(DeclaredBy(rule), cmd.args), cmd, config, level, k, perm)
    {
      OperandMeetsIff(rule, cmd, config, level, k, perm);
    }
    forall k | 0 <= k < |cmd.redirects|
      ensures AtLeast(RedirectVerdict(cmd.redirects[k], cmd, config), level) <==>
              RedirectMeets(cmd.redirects[k], cmd, config, level)
    {
      RedirectMeetsIff(cmd.redirects[k], cmd, config, level);
    }
  }

  // ---- when nothing fires

  /** Path checks record objections only. */
  predicate Objections(results: seq<CheckResult>) {
    forall i :: 0 <= i < |results| ==> results[i].action != Allow
  }

  lemma ObjectionsReach(results: seq<CheckResult>)
    requires Objections(results)
    ensures results == [] <==> !Reaches(results, Ask)
  {
    if results != [] {
      assert AtLeast(results[0], Ask);
    }
  }

  lemma {:induction false} PermsObject(path: string, perms: seq<string>, cmd: Command, config: Config)
    ensures Objections(PermChecks(path, perms, cmd, config))
  {
    hide PermissionVerdict;
    if perms != [] {
      PermsObject(path, perms[..|perms| - 1], cmd, config);
    }
  }

  lemma {:induction false} OptionsObject(options: Assoc<string, OptionValue>, rule: Rule, cmd: Command, config: Config)
    ensures Objections(OptionChecks(options, rule, cmd, config))
  {
    hide PermChecks;
    if options != [] {
      var (name, entry) := options[|options| - 1];
      OptionsObject(options[..|options| - 1], rule, cmd, config);
      if name in rule.options {
        PermsObject(entry.value, rule.options[name], cmd, config);
      }
    }
  }

  lemma {:induction false} PositionalsObject(ps: seq<(string, nat)>, n: nat, p: PositionalRule, cmd: Command,
                                             config: Config)
    requires n <= |ps|
    ensures Objections(PositionalChecks(ps, n, p, cmd, config))
  {
    hide PermChecks, PermsOf;
    if n > 0 {
      PositionalsObject(ps, n - 1, p, cmd, config);
      PermsObject(ps[n - 1].0, PermsOf(p, n - 1, |ps|), cmd, config);
    }
  }

  lemma {:induction false} RedirectsObject(redirects: seq<Redirect>, cmd: Command, config: Config)
    ensures Objections(RedirectChecks(redirects, cmd, config))
  {
    hide RedirectVerdict;
    if redirects != [] {
      RedirectsObject(redirects[..|redirects| - 1], cmd, config);
    }
  }

  lemma {:induction false} FlagsFire(rule: Rule, parsed: ParsedArgs, n: nat)
    requires n <= |rule.flags|
    ensures FlagChecks(rule.flags[..n], parsed.flags) != [] <==> exists f :: f < n && FlagFires(rule, parsed, f)
  {
    if n > 0 {
      FlagsFire(rule, parsed, n - 1);
      assert rule.flags[..n][..n - 1] == rule.flags[..n - 1];
      assert FlagChecks(rule.flags[..n], parsed.flags) != [] <==>
             FlagChecks(rule.flags[..n - 1], parsed.flags) != [] || FlagFires(rule, parsed, n - 1);
      hide FlagChecks, FlagFires;
    }
  }

  /** The checks of a command's paths: its options, its operands, its redirects. */
  function PathChecks(rule: Rule, cmd: Command, config: Config): seq<CheckResult> {
    var parsed := Parse(DeclaredBy(rule), cmd.args);
    OptionChecks(parsed.options, rule, cmd, config)
    + (if rule.positionals.Some?
       then PositionalChecks(parsed.positionals, |parsed.positionals|, rule.positionals.value, cmd, config) else [])
    + RedirectChecks(cmd.redirects, cmd, config)
  }

  lemma PathsObject(rule: Rule, cmd: Command, config: Config)
    ensures Objections(PathChecks(rule, cmd, config))
  {
    hide Parse, OptionChecks, PositionalChecks, RedirectChecks;
    var parsed := Parse(DeclaredBy(rule), cmd.args);
    OptionsObject(parsed.options, rule, cmd, config);
    if rule.positionals.Some? {
      PositionalsObject(parsed.positionals, |parsed.positionals|, rule.positionals.value, cmd, config);
    }
    RedirectsObject(cmd.redirects, cmd, config);
  }

  lemma PathChecksReach(rule: Rule, cmd: Command, config: Config, level: Action)
    requires level != Allow
    ensures Reaches(PathChecks(rule, cmd, config), level) <==> PathReaches(rule, cmd, config, level)
  {
    hide Reaches, AtLeast, Parse, OptionChecks, OptionReaches, EntryReaches, PositionalChecks, PositionalReaches,
         RedirectChecks, RedirectVerdict;
    var parsed := Parse(DeclaredBy(rule), cmd.args);
    var options := OptionChecks(parsed.options, rule, cmd, config);
    var operands := if rule.positionals.Some?
      then PositionalChecks(parsed.positionals, |parsed.positionals|, rule.positionals.value, cmd, config) else [];
    ReachesConcat(options, operands, level);
    ReachesConcat(options + operands, RedirectChecks(cmd.redirects, cmd, config), level);
    assert parsed.options[..|parsed.options|] == parsed.options;
    OptionChecksReach(parsed.options, |parsed.options|, rule, cmd, config, level);
    EntriesByName(rule, cmd, config, level);
    PositionalsReach(rule, cmd, config, level);
    RedirectChecksReach(cmd.redirects, cmd, config, level);
  }

  lemma NothingFiresIff(rule: Rule, cmd: Command, config: Config)
    ensures var parsed := Parse(DeclaredBy(rule), cmd.args);
      Fired(rule, cmd, config) == [] <==>
        rule.preCheck.None? && (forall f :: !FlagFires(rule, parsed, f)) && !PathMeets(rule, parsed, cmd, config, Ask)
  {
    hide Parse, PathChecks, PathMeets, Reaches, Objections, PathReaches, OptionChecks, PositionalChecks, RedirectChecks,
         FlagChecks;
    var parsed := Parse(DeclaredBy(rule), cmd.args);
    FlagsFire(rule, parsed, |rule.flags|);
    assert rule.flags[..|rule.flags|] == rule.flags;
    PathsObject(rule, cmd, config);
    ObjectionsReach(PathChecks(rule, cmd, config));
    PathChecksReach(rule, cmd, config, Ask);
    PathMeetsIff(rule, cmd, config, Ask);
    FiredParts(rule, cmd, config);
  }

  lemma FiredParts(rule: Rule, cmd: Command, config: Config)
    ensures var flags := FlagChecks(rule.flags, Parse(DeclaredBy(rule), cmd.args).flags);
      Fired(rule, cmd, config) == [] <==> rule.preCheck.None? && flags == [] && PathChecks(rule, cmd, config) == []
  {
    hide Parse, OptionChecks, PositionalChecks, RedirectChecks, FlagChecks;
    var before := (if rule.preCheck.Some? then [rule.preCheck.value] else [])
                  + FlagChecks(rule.flags, Parse(DeclaredBy(rule), cmd.args).flags);
    assert Fired(rule, cmd, config) == before + PathChecks(rule, cmd, config);
    assert before == [] <==>
           rule.preCheck.None? && FlagChecks(rule.flags, Parse(DeclaredBy(rule), cmd.args).flags) == [];
  }

  // ---- the verdict

  lemma CommandReachesIff(rule: Rule, cmd: Command, config: Config, level: Action)
    requires level != Allow
    ensures var parsed := Parse(DeclaredBy(rule), cmd.args);
      CommandReaches(rule, cmd, config, level) <==>
        || (rule.preCheck.Some? && Meets(rule.preCheck.value.action, level))
        || (exists f :: FlagFires(rule, parsed, f) && Meets(rule.flags[f].result.action, level))
        || PathMeets(rule, parsed, cmd, config, level)
  {
    var parsed := Parse(DeclaredBy(rule), cmd.args);
    PathMeetsIff(rule, cmd, config, level);
    forall f: nat | f < |rule.flags|
      ensures FlagReaches(rule, cmd, level, f) <==>
              FlagFires(rule, parsed, f) && Meets(rule.flags[f].result.action, level)
    {
      MeetsIff(rule.flags[f].result, level);
    }
    if rule.preCheck.Some? {
      MeetsIff(rule.preCheck.value, level);
    }
    hide Parse, PathMeets, FlagReaches, OptionReaches, PositionalReaches, RedirectVerdict, Meets, AtLeast;
  }

  lemma RuledIff(rule: Rule, cmd: Command, config: Config, level: Action)
    requires level != Allow && FindRule(Normalized(cmd), config.rules) == Some(rule)
    ensures Meets(CommandVerdict(cmd, config).action, level) <==>
            RuleMeets(rule, Parse(DeclaredBy(rule), cmd.args), cmd, config, level)
  {
    hide CommandVerdict, Parse, CommandReaches, Fired, PathMeets, FindRule, Normalized, Meets, AtLeast;
    MeetsIff(CommandVerdict(cmd, config), level);
    MeetsIff(rule.fallback, level);
    CommandVerdictIff(cmd, config, level, rule);
    CommandReachesIff(rule, cmd, config, level);
    NothingFiresIff(rule, cmd, config);
  }

  lemma UnruledIff(cmd: Command, config: Config, level: Action)
    requires level != Allow && FindRule(Normalized(cmd), config.rules).None?
    ensures Meets(CommandVerdict(cmd, config).action, level) <==> UnruledMeets(cmd, config, level)
  {
    hide CommandVerdict, RedirectVerdict, RedirectMeets, FindRule, Normalized, AtLeast, Meets, Reaches;
    UnruledVerdictIff(cmd, config, level);
    MeetsIff(CommandVerdict(cmd, config), level);
    MeetsIff(CheckResult(config.defaultAction, None), level);
    AtLeastIs(CheckResult(config.defaultAction, None), level);
    forall k | 0 <= k < |cmd.redirects|
      ensures AtLeast(RedirectVerdict(cmd.redirects[k], cmd, config), level) <==>
              RedirectMeets(cmd.redirects[k], cmd, config, level)
      ensures RedirectVerdict(cmd.redirects[k], cmd, config).action == Allow <==>
              !RedirectMeets(cmd.redirects[k], cmd, config, Ask)
    {
      RedirectMeetsIff(cmd.redirects[k], cmd, config, level);
      RedirectMeetsIff(cmd.redirects[k], cmd, config, Ask);
      AtLeastIs(RedirectVerdict(cmd.redirects[k], cmd, config), Ask);
    }
  }

  lemma AtLeastIs(r: CheckResult, level: Action)
    ensures AtLeast(r, level) <==> Priority(r.action) >= Priority(level)
    ensures AtLeast(r, Ask) <==> r.action != Allow
  {
  }

  /** What one command is worth: asked about or denied exactly when the first rule that covers it, or the
      default, has it so. */
  lemma CommandMeetsIff(cmd: Command, config: Config, level: Action)
    requires level != Allow
    ensures Meets(CommandVerdict(cmd, config).action, level) <==> CommandMeets(cmd, config, level)
  {
    hide CommandVerdict, Parse, RuleMeets, UnruledMeets, Covers, Meets, FindRule, Normalized, DeclaredBy, Declares;
    SpokenIs(cmd);
    var text := Spoken(cmd);
    FoundIsFirst(config.rules, text);
    var found := FindRule(text, config.rules);
    if found.None? {
      UnruledIff(cmd, config, level);
    } else {
      RuledIff(found.value, cmd, config, level);
      var k: nat :| FirstCovers(config.rules, text, k) && found == Some(config.rules[k]);
      forall d
        ensures Declares(config.rules[k], d) <==> d == DeclaredBy(config.rules[k])
      {
        DeclaresOne(config.rules[k], d);
      }
      assert forall l: nat :: FirstCovers(config.rules, text, l) ==> l == k;
    }
  }

  /** A line is asked about or denied exactly when it does not parse or one of its commands is. */
  lemma LineMeetsIff(walk: Walk, config: Config, level: Action)
    requires level != Allow
    ensures Meets(BashVerdict(Some(walk), config).action, level) <==>
            walk.errors != [] || exists i :: 0 <= i < |walk.commands| && CommandMeets(walk.commands[i], config, level)
  {
    hide CommandVerdict, CommandMeets;
    if walk.errors == [] {
      BashVerdictIff(walk, config, level);
      MeetsIff(BashVerdict(Some(walk), config), level);
      forall i | 0 <= i < |walk.commands|
        ensures AtLeast(CommandVerdict(walk.commands[i], config), level) <==>
                CommandMeets(walk.commands[i], config, level)
      {
        MeetsIff(CommandVerdict(walk.commands[i], config), level);
        CommandMeetsIff(walk.commands[i], config, level);
      }
    }
  }

  /** A blank line is allowed. */
  lemma BlankIsAllowed(config: Config)
    ensures BashVerdict(None, config) == CheckResult(Allow, None)
  {
  }

  /** A path-like word that its option or its place marks for writing or deleting binds the whole line to what
      the last matching override of the write section says; one marked for reading, to the read section. */
  lemma WordBindsTheLine(walk: Walk, config: Config, i: nat, k: nat, d: Declared, word: string, perm: string,
                         section: Section, r: CheckResult)
    requires walk.errors == [] && i < |walk.commands|
    requires FirstCovers(config.rules, Spoken(walk.commands[i]), k) && Declares(config.rules[k], d)
    requires HoldsWord(config.rules[k], Parse(d, walk.commands[i].args), walk.commands[i], word, perm)
    requires !config.paths.clearlyNot(word)
    requires (perm == "read" && section == config.read)
             || ((perm == "write" || perm == "delete") && section == config.write)
    requires Rules(section, word, if walk.commands[i].cwd == "" then config.cwd else walk.commands[i].cwd,
                   config.paths, r)
    ensures Meets(BashVerdict(Some(walk), config).action, r.action)
  {
    hide Parse, Rules, BashVerdict, Declares, Covers;
    if r.action != Allow {
      var cmd, rule := walk.commands[i], config.rules[k];
      assert SectionMeets(section, word, cmd, config, r.action);
      var parsed := Parse(d, cmd.args);
      assert PathMeets(rule, parsed, cmd, config, r.action) by {
        if name :| OptionHolds(rule, parsed, cmd, name, word, perm) {
          assert OptionMeets(rule, parsed, cmd, config, r.action, name, perm);
        } else {
          var n :| OperandHolds(rule, parsed, cmd, n, word, perm);
          assert OperandMeets(rule, parsed, cmd, config, r.action, n, perm);
        }
      }
      assert CommandMeets(cmd, config, r.action);
      LineMeetsIff(walk, config, r.action);
    }
  }

  predicate OptionHolds(rule: Rule, parsed: ParsedArgs, cmd: Command, name: string, word: string, perm: string) {
    var kept := Get(parsed.options, name);
    && kept.Some? && kept.value.value == word && kept.value.index !in cmd.dynamic
    && name in rule.options && perm in rule.options[name]
  }

  ghost predicate OperandHolds(rule: Rule, parsed: ParsedArgs, cmd: Command, k: int, word: string, perm: string) {
    var ps := parsed.positionals;
    && rule.positionals.Some? && 0 <= k < |ps| && ps[k].0 == word && ps[k].1 !in cmd.dynamic
    && exists perms :: Permitted(rule.positionals.value, k, |ps|, perms) && perm in perms
  }

  /** The command has the word, known before it runs, where the rule gives it the permission. */
  ghost predicate HoldsWord(rule: Rule, parsed: ParsedArgs, cmd: Command, word: string, perm: string) {
    || (exists name :: OptionHolds(rule, parsed, cmd, name, word, perm))
    || (exists k :: OperandHolds(rule, parsed, cmd, k, word, perm))
  }

  /** A redirect binds the whole line, too. */
  lemma RedirectBindsTheLine(walk: Walk, config: Config, i: nat, k: nat, r: CheckResult)
    requires walk.errors == [] && i < |walk.commands| && k < |walk.commands[i].redirects|
    requires walk.commands[i].redirects[k].isInput || walk.commands[i].redirects[k].isOutput
    requires Rules(if walk.commands[i].redirects[k].isInput then config.read else config.write,
                   walk.commands[i].redirects[k].target,
                   if walk.commands[i].cwd == "" then config.cwd else walk.commands[i].cwd, config.paths, r)
    ensures Meets(BashVerdict(Some(walk), config).action, r.action)
  {
    hide Parse, Rules, BashVerdict, Declares, FirstCovers;
    if r.action != Allow {
      var cmd := walk.commands[i];
      assert RedirectMeets(cmd.redirects[k], cmd, config, r.action);
      RedirectMeetsCommand(cmd, config, k, r.action);
      LineMeetsIff(walk, config, r.action);
    }
  }

  lemma RedirectMeetsCommand(cmd: Command, config: Config, k: nat, level: Action)
    requires k < |cmd.redirects| && RedirectMeets(cmd.redirects[k], cmd, config, level)
    ensures CommandMeets(cmd, config, level)
  {
    hide Parse, RedirectMeets, Covers;
    FoundIsFirst(config.rules, Spoken(cmd));
    if FindRule(Spoken(cmd), config.rules).Some? {
      var n: nat :| FirstCovers(config.rules, Spoken(cmd), n);
      var rule := config.rules[n];
      DeclaresOne(rule, DeclaredBy(rule));
      var parsed := Parse(DeclaredBy(rule), cmd.args);
      assert PathMeets(rule, parsed, cmd, config, level);
      assert RuleMeets(rule, parsed, cmd, config, level);
    }
  }

  // ---- reasons

  /** Result `i` is the first to give the reason. */
  predicate FirstSays(results: seq<CheckResult>, i: nat, reason: string) {
    && i < |results| && results[i].reason == Some(reason)
    && forall j :: 0 <= j < i ==> results[j].reason != Some(reason)
  }

  ghost predicate Ordered(reasons: seq<string>, results: seq<CheckResult>) {
    forall j: nat, k: nat, a: nat, b: nat | j < k < |reasons| ::
      FirstSays(results, a, reasons[j]) && FirstSays(results, b, reasons[k]) ==> a < b
  }

  /** The reasons are those of the results, each once, in the order in which they first came up. */
  lemma {:induction false} ReasonsInOrder(results: seq<CheckResult>)
    ensures Ordered(Reasons(results), results) && NoDup(Reasons(results))
  {
    if results != [] {
      var n := |results| - 1;
      var before := results[..n];
      ReasonsInOrder(before);
      var all, earlier := Reasons(results), Reasons(before);
      forall j: nat, a: nat | j < |earlier| && FirstSays(results, a, earlier[j])
        ensures FirstSays(before, a, earlier[j])
      {
        assert earlier[j] in earlier;
      }
      forall j: nat, k: nat, a: nat, b: nat
        | j < k < |all| && FirstSays(results, a, all[j]) && FirstSays(results, b, all[k])
        ensures a < b
      {
        if k < |earlier| {
          assert FirstSays(before, a, earlier[j]) && FirstSays(before, b, earlier[k]);
        } else {
          assert all == earlier + [all[k]] && all[k] !in earlier;
          assert FirstSays(before, a, earlier[j]);
          assert forall i :: 0 <= i < n ==> before[i].reason != Some(all[k]) && before[i] == results[i];
        }
      }
    }
  }
}
