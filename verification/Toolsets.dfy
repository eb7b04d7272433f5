/** The assembled toolset (`tabit-app/src/extensions.rs`, `plan` and `replaced_core`;
    `tabit-app/src/assemble.rs`, the candidate set and its filter): live extensions declare tools in
    scan order, the first to declare a name holds it, a declared core tool is replaced. */
module Toolsets {
  import opened Wrappers
  import opened Sequences

  type Name = string

  /** One extension's resolved report. */
  datatype Report = Report(name: Name, alive: bool, tools: seq<Name>)

  datatype Planned = Planned(extension: Name, tool: Name)

  datatype Conflict =
    | RefusedPeer(extension: Name, tool: Name, incumbent: Name)
    | ReplacesCore(extension: Name, tool: Name)

  /** Every live declaration, in scan order. */
  function Declarations(reports: seq<Report>): seq<Planned> {
    if reports == [] then []
    else
      var last := reports[|reports| - 1];
      Declarations(reports[..|reports| - 1]) + if last.alive then DeclaredBy(last.name, last.tools) else []
  }

  function DeclaredBy(extension: Name, tools: seq<Name>): (ds: seq<Planned>)
    ensures |ds| == |tools| && forall i :: 0 <= i < |ds| ==> ds[i] == Planned(extension, tools[i])
  {
    seq(|tools|, i requires 0 <= i < |tools| => Planned(extension, tools[i]))
  }

  /** The first live extension that declares a name. */
  function Holder(ds: seq<Planned>, tool: Name): Option<Name> {
    if ds == [] then None
    else if Holder(ds[..|ds| - 1], tool).Some? then Holder(ds[..|ds| - 1], tool)
    else if ds[|ds| - 1].tool == tool then Some(ds[|ds| - 1].extension)
    else None
  }

  /** The declarations that get their name: each the first of its name. */
  function Survivors(ds: seq<Planned>): seq<Planned> {
    if ds == [] then []
    else
      var earlier, last := ds[..|ds| - 1], ds[|ds| - 1];
      Survivors(earlier) + if Holder(earlier, last.tool).None? then [last] else []
  }

  function Conflicts(ds: seq<Planned>, core: set<Name>): seq<Conflict> {
    if ds == [] then []
    else
      var earlier, last := ds[..|ds| - 1], ds[|ds| - 1];
      Conflicts(earlier, core) +
      match Holder(earlier, last.tool)
      case Some(incumbent) => [RefusedPeer(last.extension, last.tool, incumbent)]
      case None => if last.tool in core then [ReplacesCore(last.extension, last.tool)] else []
  }

  method Plan(reports: seq<Report>, core: seq<Name>) returns (planned: seq<Planned>, conflicts: seq<Conflict>)
    ensures planned == Survivors(Declarations(reports))
    ensures conflicts == Conflicts(Declarations(reports), Elements(core))
  {
    planned, conflicts := [], [];
    for i := 0 to |reports|
      invariant planned == Survivors(Declarations(reports[..i]))
      invariant conflicts == Conflicts(Declarations(reports[..i]), Elements(core))
    {
      var report := reports[i];
      ghost var ds := Declarations(reports[..i]);
      assert reports[..i + 1][..i] == reports[..i];
      if !report.alive {
        assert ds + [] == ds;
        continue;
      }
      planned, conflicts := PlanOne(report, core, planned, conflicts, ds);
    }
    assert reports[..|reports|] == reports;
  }

  /** The declarations of one live extension. */
  method PlanOne(report: Report, core: seq<Name>, planned: seq<Planned>, conflicts: seq<Conflict>,
                 ghost ds: seq<Planned>)
    returns (planned': seq<Planned>, conflicts': seq<Conflict>)
    requires planned == Survivors(ds) && conflicts == Conflicts(ds, Elements(core))
    ensures planned' == Survivors(ds + DeclaredBy(report.name, report.tools))
    ensures conflicts' == Conflicts(ds + DeclaredBy(report.name, report.tools), Elements(core))
  {
    planned', conflicts' := planned, conflicts;
    ghost var all := DeclaredBy(report.name, report.tools);
    assert ds + all[..0] == ds && all[..|all|] == all;
    for k := 0 to |report.tools|
      invariant planned' == Survivors(ds + all[..k]) && conflicts' == Conflicts(ds + all[..k], Elements(core))
    {
      var tool := report.tools[k];
      ghost var seen := ds + all[..k];
      assert ds + all[..k + 1] == seen + [Planned(report.name, tool)];
      DeclarationStep(seen, Planned(report.name, tool), Elements(core));
      var incumbent := HeldBy(planned', tool, seen);
      if incumbent.Some? {
        conflicts' := conflicts' + [RefusedPeer(report.name, tool, incumbent.value)];
      } else {
        if tool in core {
          conflicts' := conflicts' + [ReplacesCore(report.name, tool)];
        }
        planned' := planned' + [Planned(report.name, tool)];
      }
    }
  }

  lemma DeclarationStep(ds: seq<Planned>, p: Planned, core: set<Name>)
    ensures Survivors(ds + [p]) == if Holder(ds, p.tool).None? then Survivors(ds) + [p] else Survivors(ds)
    ensures Conflicts(ds + [p], core) ==
      match Holder(ds, p.tool)
      case Some(incumbent) => Conflicts(ds, core) + [RefusedPeer(p.extension, p.tool, incumbent)]
      case None => if p.tool in core then Conflicts(ds, core) + [ReplacesCore(p.extension, p.tool)]
        else Conflicts(ds, core)
  {
    assert (ds + [p])[..|ds|] == ds;
  }

  /** Searching the held names finds the first declarer. */
  method HeldBy(planned: seq<Planned>, tool: Name, ghost ds: seq<Planned>) returns (incumbent: Option<Name>)
    requires planned == Survivors(ds)
    ensures incumbent == Holder(ds, tool)
  {
    var i := 0;
    while i < |planned| && planned[i].tool != tool
      invariant i <= |planned| && forall k :: 0 <= k < i ==> planned[k].tool != tool
    {
      i := i + 1;
    }
    SurvivorsHold(ds, tool);
    if i < |planned| {
      SurvivorHolds(ds, i);
      return Some(planned[i].extension);
    }
    return None;
  }

  /** Every survivor is the holder of its name. */
  lemma {:induction false} SurvivorHolds(ds: seq<Planned>, i: nat)
    requires i < |Survivors(ds)|
    ensures Holder(ds, Survivors(ds)[i].tool) == Some(Survivors(ds)[i].extension)
  {
    var earlier := ds[..|ds| - 1];
    if i < |Survivors(earlier)| {
      SurvivorHolds(earlier, i);
    }
  }

  /** And every held name survives. */
  lemma {:induction false} SurvivorsHold(ds: seq<Planned>, tool: Name)
    ensures Holder(ds, tool).Some? ==> Planned(Holder(ds, tool).value, tool) in Survivors(ds)
  {
    if ds != [] {
      SurvivorsHold(ds[..|ds| - 1], tool);
    }
  }

  lemma {:induction false} SurvivorsDistinct(ds: seq<Planned>)
    ensures forall i, j :: 0 <= i < j < |Survivors(ds)| ==> Survivors(ds)[i].tool != Survivors(ds)[j].tool
  {
    if ds != [] {
      var earlier, last := ds[..|ds| - 1], ds[|ds| - 1];
      SurvivorsDistinct(earlier);
      forall i | 0 <= i < |Survivors(earlier)|
        ensures Holder(earlier, last.tool).None? ==> Survivors(earlier)[i].tool != last.tool
      {
        SurvivorHolds(earlier, i);
      }
    }
  }

  predicate FirstOf(ds: seq<Planned>, i: nat)
    requires i < |ds|
  {
    forall j :: 0 <= j < i ==> ds[j].tool != ds[i].tool
  }

  /** The holder is the first live declarer in scan order. */
  lemma {:induction false} HolderIsFirst(ds: seq<Planned>, tool: Name)
    ensures Holder(ds, tool).None? <==> forall i :: 0 <= i < |ds| ==> ds[i].tool != tool
    ensures Holder(ds, tool).Some? ==>
      exists i :: 0 <= i < |ds| && ds[i] == Planned(Holder(ds, tool).value, tool) && FirstOf(ds, i)
  {
    if ds != [] {
      var earlier := ds[..|ds| - 1];
      HolderIsFirst(earlier, tool);
      if Holder(earlier, tool).Some? {
        var i :| 0 <= i < |earlier| && earlier[i] == Planned(Holder(earlier, tool).value, tool) && FirstOf(earlier, i);
        assert ds[i] == earlier[i] && FirstOf(ds, i);
      } else if ds[|ds| - 1].tool == tool {
        assert forall j :: 0 <= j < |ds| - 1 ==> ds[j] == earlier[j];
        assert FirstOf(ds, |ds| - 1);
      }
    }
  }

  // ---- the toolset

  datatype Tool = Core(name: Name) | Proxy(name: Name, extension: Name)

  function Replaced(conflicts: seq<Conflict>): set<Name> {
    set i | 0 <= i < |conflicts| && conflicts[i].ReplacesCore? :: conflicts[i].tool
  }

  predicate Admitted(allow: Option<seq<Name>>, deny: seq<Name>, name: Name) {
    (allow.None? || name in allow.value) && name !in deny
  }

  function CoreTools(core: seq<Name>, replaced: set<Name>): seq<Tool> {
    if core == [] then []
    else (if core[0] in replaced then [] else [Core(core[0])]) + CoreTools(core[1..], replaced)
  }

  function Proxies(planned: seq<Planned>): (tools: seq<Tool>)
    ensures |tools| == |planned|
    ensures forall i :: 0 <= i < |tools| ==> tools[i] == Proxy(planned[i].tool, planned[i].extension)
  {
    seq(|planned|, i requires 0 <= i < |planned| => Proxy(planned[i].tool, planned[i].extension))
  }

  function Retained(tools: seq<Tool>, allow: Option<seq<Name>>, deny: seq<Name>): seq<Tool> {
    if tools == [] then []
    else (if Admitted(allow, deny, tools[0].name) then [tools[0]] else []) + Retained(tools[1..], allow, deny)
  }

  /** Core tools that were not replaced, then the proxies, through the filter. */
  method AssembleTools(reports: seq<Report>, core: seq<Name>, allow: Option<seq<Name>>, without: seq<Name>,
                       disables: seq<Name>)
    returns (tools: seq<Tool>)
    ensures tools == Toolset(reports, core, allow, without + disables)
  {
    var planned, conflicts := Plan(reports, core);
    var candidate := CoreTools(core, Replaced(conflicts)) + Proxies(planned);
    tools := Retained(candidate, allow, without + disables);
  }

  function Toolset(reports: seq<Report>, core: seq<Name>, allow: Option<seq<Name>>, deny: seq<Name>): seq<Tool> {
    var ds := Declarations(reports);
    Retained(CoreTools(core, Replaced(Conflicts(ds, Elements(core)))) + Proxies(Survivors(ds)), allow, deny)
  }

  /** Who should serve a name: the first live extension declaring it, else core. */
  function Server(reports: seq<Report>, core: seq<Name>, name: Name): Option<Tool> {
    match Holder(Declarations(reports), name)
    case Some(extension) => Some(Proxy(name, extension))
    case None => if name in core then Some(Core(name)) else None
  }

  /** A core tool is replaced exactly when some live extension declares its name. */
  lemma {:induction false} ReplacedIff(ds: seq<Planned>, core: set<Name>, name: Name)
    ensures name in Replaced(Conflicts(ds, core)) <==> name in core && Holder(ds, name).Some?
  {
    if ds != [] {
      var earlier, last := ds[..|ds| - 1], ds[|ds| - 1];
      ReplacedIff(earlier, core, name);
      var added := match Holder(earlier, last.tool)
        case Some(incumbent) => [RefusedPeer(last.extension, last.tool, incumbent)]
        case None => if last.tool in core then [ReplacesCore(last.extension, last.tool)] else [];
      assert name in Replaced(added) <==> added != [] && added[0].ReplacesCore? && added[0].tool == name by {
        if added != [] && added[0].ReplacesCore? { assert added[0].tool in Replaced(added); }
      }
      ReplacedConcat(Conflicts(earlier, core), added, name);
    }
  }

  lemma ReplacedConcat(a: seq<Conflict>, b: seq<Conflict>, name: Name)
    ensures name in Replaced(a + b) <==> name in Replaced(a) || name in Replaced(b)
  {
    if i :| 0 <= i < |a| && a[i].ReplacesCore? && a[i].tool == name { assert (a + b)[i] == a[i]; }
    if i :| 0 <= i < |b| && b[i].ReplacesCore? && b[i].tool == name { assert (a + b)[|a| + i] == b[i]; }
  }

  lemma {:induction false} CoreToolsExactly(core: seq<Name>, replaced: set<Name>, tool: Tool)
    ensures tool in CoreTools(core, replaced) <==> tool.Core? && tool.name in core && tool.name !in replaced
  {
    if core != [] {
      CoreToolsExactly(core[1..], replaced, tool);
    }
  }

  lemma {:induction false} RetainedExactly(tools: seq<Tool>, allow: Option<seq<Name>>, deny: seq<Name>, tool: Tool)
    ensures tool in Retained(tools, allow, deny) <==> tool in tools && Admitted(allow, deny, tool.name)
  {
    if tools != [] {
      RetainedExactly(tools[1..], allow, deny, tool);
    }
  }

  /** The toolset holds exactly the admitted names somebody offers, each served by the first live
      extension that declares it, else by core. */
  lemma ToolsetExactly(reports: seq<Report>, core: seq<Name>, allow: Option<seq<Name>>, deny: seq<Name>, tool: Tool)
    ensures tool in Toolset(reports, core, allow, deny) <==>
      Server(reports, core, tool.name) == Some(tool) && Admitted(allow, deny, tool.name)
  {
    var ds := Declarations(reports);
    var replaced := Replaced(Conflicts(ds, Elements(core)));
    var kept, proxies := CoreTools(core, replaced), Proxies(Survivors(ds));
    ReplacedIff(ds, Elements(core), tool.name);
    CoreToolsExactly(core, replaced, tool);
    RetainedExactly(kept + proxies, allow, deny, tool);
    SurvivorsHold(ds, tool.name);
    if tool in proxies {
      var i :| 0 <= i < |proxies| && proxies[i] == tool;
      SurvivorHolds(ds, i);
    }
    if Holder(ds, tool.name).Some? {
      var i :| 0 <= i < |Survivors(ds)| && Survivors(ds)[i] == Planned(Holder(ds, tool.name).value, tool.name);
      assert proxies[i] == Proxy(tool.name, Holder(ds, tool.name).value);
    }
  }

  ghost predicate UniqueNames(tools: seq<Tool>) {
    forall i, j :: 0 <= i < j < |tools| ==> tools[i].name != tools[j].name
  }

  lemma {:induction false} CoreToolsUnique(core: seq<Name>, replaced: set<Name>)
    requires NoDup(core)
    ensures UniqueNames(CoreTools(core, replaced))
  {
    if core != [] {
      CoreToolsUnique(core[1..], replaced);
      forall tool | tool in CoreTools(core[1..], replaced)
        ensures tool.name != core[0]
      {
        CoreToolsExactly(core[1..], replaced, tool);
      }
    }
  }

  lemma {:induction false} RetainedUnique(tools: seq<Tool>, allow: Option<seq<Name>>, deny: seq<Name>)
    requires UniqueNames(tools)
    ensures UniqueNames(Retained(tools, allow, deny))
  {
    if tools != [] {
      RetainedUnique(tools[1..], allow, deny);
      forall tool | tool in Retained(tools[1..], allow, deny)
        ensures tool.name != tools[0].name
      {
        RetainedExactly(tools[1..], allow, deny, tool);
        var i :| 0 <= i < |tools[1..]| && tools[1..][i] == tool;
      }
    }
  }

  /** One name, one tool: the engine gets a conflict-free set. */
  lemma ToolsetIsConflictFree(reports: seq<Report>, core: seq<Name>, allow: Option<seq<Name>>, deny: seq<Name>)
    requires NoDup(core)
    ensures UniqueNames(Toolset(reports, core, allow, deny))
  {
    var ds := Declarations(reports);
    var replaced := Replaced(Conflicts(ds, Elements(core)));
    var kept, proxies := CoreTools(core, replaced), Proxies(Survivors(ds));
    CoreToolsUnique(core, replaced);
    SurvivorsDistinct(ds);
    forall a, b | a in kept && b in proxies
      ensures a.name != b.name
    {
      CoreToolsExactly(core, replaced, a);
      ReplacedIff(ds, Elements(core), a.name);
      var i :| 0 <= i < |proxies| && proxies[i] == b;
      SurvivorHolds(ds, i);
    }
    forall i, j | 0 <= i < j < |kept + proxies|
      ensures (kept + proxies)[i].name != (kept + proxies)[j].name
    {
      if i < |kept| <= j { assert kept[i] in kept && proxies[j - |kept|] in proxies; }
    }
    RetainedUnique(kept + proxies, allow, deny);
  }

  /** Extension `k` of the reports is alive and declares this. */
  predicate Declares(reports: seq<Report>, k: nat, p: Planned)
    requires k < |reports|
  {
    reports[k].alive && reports[k].name == p.extension && p.tool in reports[k].tools
  }

  /** An extension that is not alive holds no name, whatever it declared. */
  lemma {:induction false} DeadDeclareNothing(reports: seq<Report>, i: nat)
    requires i < |Declarations(reports)|
    ensures exists k :: 0 <= k < |reports| && Declares(reports, k, Declarations(reports)[i])
  {
    var n := |reports| - 1;
    var earlier := Declarations(reports[..n]);
    if i < |earlier| {
      DeadDeclareNothing(reports[..n], i);
      var k :| 0 <= k < n && Declares(reports[..n], k, earlier[i]);
      assert Declarations(reports)[i] == earlier[i];
      assert Declares(reports, k, earlier[i]);
    } else {
      assert Declarations(reports)[i] == DeclaredBy(reports[n].name, reports[n].tools)[i - |earlier|];
      assert Declares(reports, n, Declarations(reports)[i]);
    }
  }

  // ---- the scan order, over the reports themselves

  /** Extension `k` of the reports is alive and declares the name. */
  predicate Offers(reports: seq<Report>, k: nat, name: Name) {
    k < |reports| && reports[k].alive && name in reports[k].tools
  }

  /** And none before it does. */
  predicate FirstToOffer(reports: seq<Report>, k: nat, name: Name) {
    Offers(reports, k, name) && forall j: nat :: j < k ==> !Offers(reports, j, name)
  }

  ghost predicate NobodyOffers(reports: seq<Report>, name: Name) {
    forall k: nat :: !Offers(reports, k, name)
  }

  lemma {:induction false} HolderOfBoth(a: seq<Planned>, b: seq<Planned>, name: Name)
    ensures Holder(a + b, name) == if Holder(a, name).Some? then Holder(a, name) else Holder(b, name)
  {
    if b == [] {
      assert a + b == a;
    } else {
      var n := |b| - 1;
      HolderOfBoth(a, b[..n], name);
      assert (a + b)[..|a + b| - 1] == a + b[..n] && (a + b)[|a + b| - 1] == b[n];
    }
  }

  lemma {:induction false} HolderOfOne(extension: Name, tools: seq<Name>, name: Name)
    ensures Holder(DeclaredBy(extension, tools), name) == if name in tools then Some(extension) else None
  {
    if tools != [] {
      var n := |tools| - 1;
      HolderOfOne(extension, tools[..n], name);
      assert DeclaredBy(extension, tools)[..n] == DeclaredBy(extension, tools[..n]);
      assert tools == tools[..n] + [tools[n]];
    }
  }

  lemma OffersNext(reports: seq<Report>, k: nat, name: Name)
    requires reports != []
    ensures var n := |reports| - 1;
      Offers(reports, k, name) <==>
        Offers(reports[..n], k, name) || (k == n && reports[n].alive && name in reports[n].tools)
  {
  }

  /** The name is held by the first extension, in the order of the reports, to offer it. */
  lemma {:induction false} HolderOffersFirst(reports: seq<Report>, name: Name)
    ensures match Holder(Declarations(reports), name)
      case None => NobodyOffers(reports, name)
      case Some(extension) => exists k: nat :: FirstToOffer(reports, k, name) && reports[k].name == extension
  {
    hide Holder, DeclaredBy;
    if reports == [] {
      HolderOfOne("", [], name);
      assert DeclaredBy("", []) == [];
    } else {
      var n := |reports| - 1;
      var before, last := reports[..n], reports[n];
      HolderOffersFirst(before, name);
      HolderOfOne(last.name, last.tools, name);
      var own := if last.alive then DeclaredBy(last.name, last.tools) else [];
      HolderOfOne("", [], name);
      assert DeclaredBy("", []) == [];
      HolderOfBoth(Declarations(before), own, name);
      forall k: nat
        ensures Offers(reports, k, name) <==>
                Offers(before, k, name) || (k == n && last.alive && name in last.tools)
      {
        OffersNext(reports, k, name);
      }
      if Holder(Declarations(before), name).Some? {
        var k: nat :| FirstToOffer(before, k, name) && before[k].name == Holder(Declarations(before), name).value;
        assert FirstToOffer(reports, k, name);
      } else if last.alive && name in last.tools {
        assert FirstToOffer(reports, n, name);
      }
    }
  }

  /** The toolset holds a proxy exactly for each admitted name that a live extension offers, served by the
      first in the order of the reports to do so, and a core tool exactly for each admitted core name that
      none offers. */
  lemma ToolIsServedIff(reports: seq<Report>, core: seq<Name>, allow: Option<seq<Name>>, deny: seq<Name>, tool: Tool)
    ensures tool in Toolset(reports, core, allow, deny) <==>
      && (allow.None? || tool.name in allow.value) && tool.name !in deny
      && match tool
         case Proxy(name, extension) => exists k: nat :: FirstToOffer(reports, k, name) && reports[k].name == extension
         case Core(name) => name in core && NobodyOffers(reports, name)
  {
    hide Toolset, Holder, Declarations;
    ToolsetExactly(reports, core, allow, deny, tool);
    HolderOffersFirst(reports, tool.name);
    forall k: nat, l: nat | FirstToOffer(reports, k, tool.name) && FirstToOffer(reports, l, tool.name)
      ensures k == l
    {
      assert !(k < l) && !(l < k);
    }
  }

  /** How many tools the live extensions before `k` declare. */
  function Offset(reports: seq<Report>, k: nat): nat
    requires k <= |reports|
  {
    if k == 0 then 0 else Offset(reports, k - 1) + if reports[k - 1].alive then |reports[k - 1].tools| else 0
  }

  lemma {:induction false} OffsetPrefix(reports: seq<Report>, n: nat, k: nat)
    requires k <= n <= |reports|
    ensures Offset(reports[..n], k) == Offset(reports, k) <= Offset(reports, n)
    decreases n, k
  {
    if k > 0 {
      OffsetPrefix(reports, n, k - 1);
    }
    if k < n {
      OffsetPrefix(reports, n - 1, k);
    }
  }

  /** Tool `n` of extension `k` is declared, after all tools of the live extensions before. */
  predicate DeclaredInOrder(reports: seq<Report>, k: nat, n: nat)
    requires k < |reports| && n < |reports[k].tools|
  {
    var at := Offset(reports, k) + n;
    at < |Declarations(reports)| && Declarations(reports)[at] == Planned(reports[k].name, reports[k].tools[n])
  }

  lemma {:induction false} DeclarationCount(reports: seq<Report>)
    ensures |Declarations(reports)| == Offset(reports, |reports|)
  {
    if reports != [] {
      DeclarationCount(reports[..|reports| - 1]);
      OffsetPrefix(reports, |reports| - 1, |reports| - 1);
    }
  }

  /** The declarations are those of the live extensions, one extension after the other, each in its own
      order, and no more. */
  lemma {:induction false} DeclarationsInOrder(reports: seq<Report>, k: nat, n: nat)
    requires k < |reports| && reports[k].alive && n < |reports[k].tools|
    ensures DeclaredInOrder(reports, k, n)
    ensures |Declarations(reports)| == Offset(reports, |reports|)
    decreases |reports|
  {
    var last := |reports| - 1;
    var before := reports[..last];
    DeclarationCount(reports);
    DeclarationCount(before);
    OffsetPrefix(reports, last, last);
    OffsetPrefix(reports, last, k);
    if k < last {
      DeclarationsInOrder(before, k, n);
    }
  }

  /** Declaration `i` is in conflict: its name is held by an earlier one, or else is a core tool's. */
  ghost predicate InConflict(ds: seq<Planned>, core: set<Name>, i: nat, c: Conflict) {
    && i < |ds|
    && match c
       case RefusedPeer(extension, tool, incumbent) =>
         ds[i] == Planned(extension, tool)
         && exists j :: 0 <= j < i && ds[j] == Planned(incumbent, tool) && FirstOf(ds, j)
       case ReplacesCore(extension, tool) => ds[i] == Planned(extension, tool) && FirstOf(ds, i) && tool in core
  }

  lemma HolderAt(ds: seq<Planned>, tool: Name, incumbent: Name)
    ensures Holder(ds, tool) == Some(incumbent) <==>
            exists j :: 0 <= j < |ds| && ds[j] == Planned(incumbent, tool) && FirstOf(ds, j)
  {
    HolderIsFirst(ds, tool);
    forall j, k | 0 <= j < |ds| && 0 <= k < |ds| && ds[j].tool == ds[k].tool && FirstOf(ds, j) && FirstOf(ds, k)
      ensures j == k
    {
    }
  }

  /** What a declaration clashes with: the holder of its name, else a core tool. */
  function Clash(p: Planned, held: Option<Name>, core: set<Name>): Option<Conflict> {
    if held.Some? then Some(RefusedPeer(p.extension, p.tool, held.value))
    else if p.tool in core then Some(ReplacesCore(p.extension, p.tool))
    else None
  }

  lemma FirstNext(ds: seq<Planned>)
    requires ds != []
    ensures var n := |ds| - 1;
      && (forall j: nat :: j < n ==> (FirstOf(ds[..n], j) <==> FirstOf(ds, j)))
      && (FirstOf(ds, n) <==> Holder(ds[..n], ds[n].tool).None?)
  {
    HolderIsFirst(ds[..|ds| - 1], ds[|ds| - 1].tool);
  }

  lemma ReplacesNext(ds: seq<Planned>, core: set<Name>, i: nat, c: Conflict)
    requires ds != [] && c.ReplacesCore?
    ensures var n := |ds| - 1; var held := Holder(ds[..n], ds[n].tool);
      InConflict(ds, core, i, c) <==> InConflict(ds[..n], core, i, c) || (i == n && Some(c) == Clash(ds[n], held, core))
  {
    FirstNext(ds);
    hide Holder, FirstOf;
  }

  lemma RefusedNext(ds: seq<Planned>, core: set<Name>, i: nat, c: Conflict)
    requires ds != [] && c.RefusedPeer?
    ensures var n := |ds| - 1; var held := Holder(ds[..n], ds[n].tool);
      InConflict(ds, core, i, c) <==> InConflict(ds[..n], core, i, c) || (i == n && Some(c) == Clash(ds[n], held, core))
  {
    FirstNext(ds);
    HolderAt(ds[..|ds| - 1], c.tool, c.incumbent);
    hide Holder, FirstOf;
  }

  /** The conflicts are exactly the declarations whose name was held already and the first ones of a core
      tool's name. */
  lemma {:induction false} ConflictIff(ds: seq<Planned>, core: set<Name>, c: Conflict)
    ensures c in Conflicts(ds, core) <==> exists i: nat :: InConflict(ds, core, i, c)
  {
    hide Holder, InConflict;
    if ds == [] {
      NoConflict(core, c);
    } else {
      var n := |ds| - 1;
      ConflictIff(ds[..n], core, c);
      var held := Holder(ds[..n], ds[n].tool);
      forall i: nat
        ensures InConflict(ds, core, i, c) <==>
                InConflict(ds[..n], core, i, c) || (i == n && Some(c) == Clash(ds[n], held, core))
      {
        if c.ReplacesCore? {
          ReplacesNext(ds, core, i, c);
        } else {
          RefusedNext(ds, core, i, c);
        }
      }
      assert c in Conflicts(ds, core) <==> c in Conflicts(ds[..n], core) || Some(c) == Clash(ds[n], held, core);
      if Some(c) == Clash(ds[n], held, core) {
        assert InConflict(ds, core, n, c);
      }
    }
  }

  lemma NoConflict(core: set<Name>, c: Conflict)
    ensures forall i: nat :: !InConflict([], core, i, c)
  {
  }
}
