/** What each operation of the session tree (`session-tree.ts`) does to its state, as functions on
    values, and what every run of them keeps. The class in `SessionTrees.dfy` is proved to compute
    these functions in place. */
module Trees {
  import opened Wrappers
  import opened Sequences
  import opened Previews
  import opened Forests

  type CallId = string

  datatype Tree = Tree(
    nodes: Nodes,
    roots: seq<Id>,
    head: Option<Id>,
    openTurn: Option<Id>,
    calls: map<CallId, ToolCall>)

  /** How a run goes wrong: appending to the child list of a head that is no entry throws; and an
      entry announced while the head names that same entry becomes its own parent, so that the walk
      up from the head never ends. */
  datatype Fault = MissingHead | OwnParent

  const Empty := Tree(map[], [], None, None, map[])

  // ---- the operations

  /** `id` listed as the last child of `h`. */
  function Listed(nodes: Nodes, h: Id, id: Id): Nodes
    requires h in nodes
  {
    nodes[h := nodes[h].(children := nodes[h].children + [id])]
  }

  function Enter(t: Tree, id: Id, kind: EntryKind, preview: string): Result<Tree, Fault> {
    if id in t.nodes then Ok(t.(head := Some(id)))
    else
      var nodes := t.nodes[id := TreeNode(kind, t.head, [], preview)];
      match t.head
      case None => Ok(t.(nodes := nodes, roots := t.roots + [id], head := Some(id)))
      case Some(h) =>
        if h in nodes then Ok(t.(nodes := Listed(nodes, h, id), head := Some(id))) else Err(MissingHead)
  }

  function OpenTurn(t: Tree, id: Id): Result<Tree, Fault> {
    var known := id in t.nodes;
    match Enter(t, id, Turn, "")
    case Err(fault) => Err(fault)
    case Ok(entered) => Ok(if known then entered else entered.(openTurn := Some(id)))
  }

  function AppendTurnText(t: Tree, id: Id, text: string): Tree {
    if t.openTurn == Some(id) && id in t.nodes then
      t.(nodes := t.nodes[id := t.nodes[id].(preview := AppendPreview(t.nodes[id].preview, text))])
    else t
  }

  function Announced(t: Tree, call: CallId): Option<ToolCall> {
    if call in t.calls then Some(t.calls[call]) else None
  }

  function AddTool(t: Tree, id: Id, call: CallId, name: string): Result<Tree, Fault> {
    Enter(t.(calls := t.calls - {call}), id, Tool, ToolLabel(Announced(t, call), name))
  }

  /** Nobody lists `top` as a child any more. */
  function Unlisted(nodes: Nodes, top: Id): Nodes {
    map x | x in nodes :: nodes[x].(children := Drop(nodes[x].children, {top}))
  }

  /** What is left of `t` once `dropped` is gone and nobody lists `top` as a child or a root. */
  ghost function Without(t: Tree, dropped: set<Id>, top: Id): Tree {
    t.(nodes := Unlisted(t.nodes - dropped, top),
       roots := Drop(t.roots, {top}))
  }

  /** A discarded turn takes exactly its subtree with it; a head that is no longer an entry falls
      back to the turn's parent. */
  ghost function RetryTurn(t: Tree, id: Id): Tree
    requires Acyclic(t.nodes)
  {
    var open := if t.openTurn == Some(id) then None else t.openTurn;
    if id !in t.nodes then t.(openTurn := open)
    else
      var kept := Without(t, Subtree(t.nodes, id), id);
      kept.(openTurn := open,
            head := if t.head.Some? && t.head.value !in kept.nodes then t.nodes[id].parent else t.head)
  }

  function Checkout(t: Tree, id: Id): Tree {
    t.(openTurn := None, head := Some(id))
  }

  // ---- runs

  datatype Step =
    | AddUser(id: Id, text: string)
    | StartTurn(id: Id)
    | TurnText(id: Id, text: string)
    | NoteToolCall(call: CallId, announced: ToolCall)
    | ToolResult(id: Id, call: CallId, name: string)
    | AddCompaction(id: Id, totalTokens: nat)
    | DiscardTurn(id: Id)
    | CloseTurn
    | MoveHead(id: Id)
    | Reset

  ghost function Apply(t: Tree, step: Step): Result<Tree, Fault>
    requires Acyclic(t.nodes)
  {
    match step
    case AddUser(id, text) => Enter(t, id, User, SingleLine(text))
    case StartTurn(id) => OpenTurn(t, id)
    case TurnText(id, text) => Ok(AppendTurnText(t, id, text))
    case NoteToolCall(call, announced) => Ok(t.(calls := t.calls[call := announced]))
    case ToolResult(id, call, name) => AddTool(t, id, call, name)
    case AddCompaction(id, tokens) => Enter(t, id, Compaction, CompactionLabel(tokens))
    case DiscardTurn(id) => Ok(RetryTurn(t, id))
    case CloseTurn => Ok(t.(openTurn := None))
    case MoveHead(id) => Ok(Checkout(t, id))
    case Reset => Ok(Empty)
  }

  /** The entry a step announces, if it announces one. */
  function Entered(step: Step): Option<Id> {
    match step
    case AddUser(id, _) => Some(id)
    case StartTurn(id) => Some(id)
    case ToolResult(id, _, _) => Some(id)
    case AddCompaction(id, _) => Some(id)
    case _ => None
  }

  // ---- the invariant

  /** The state every run keeps, whatever it checks out: one well-formed tree, and no head only
      while nothing was ever entered. */
  ghost predicate WellFormed(t: Tree) {
    Forest(t.nodes, t.roots) && |t.roots| <= 1 && (t.head.None? ==> t.nodes == map[])
  }

  lemma WellFormedIsAcyclic(t: Tree)
    requires WellFormed(t)
    ensures Acyclic(t.nodes)
  {
  }

  /** The head names an entry, or the tree is empty. */
  ghost predicate HeadKnown(t: Tree) {
    if t.head.None? then t.nodes == map[] else t.head.value in t.nodes
  }

  /** A run, up to the first step that goes wrong. */
  ghost function Run(t: Tree, steps: seq<Step>): Result<Tree, Fault>
    requires Acyclic(t.nodes)
    decreases |steps|
  {
    if steps == [] then Ok(t)
    else match Apply(t, steps[0])
      case Err(fault) => Err(fault)
      case Ok(next) => if Acyclic(next.nodes) then Run(next, steps[1..]) else Err(OwnParent)
  }

  /** A run as the wire delivers it: a checkout names an entry announced before. */
  ghost predicate KnownCheckouts(t: Tree, steps: seq<Step>)
    requires Acyclic(t.nodes)
    decreases |steps|
  {
    steps == [] || (
      && (steps[0].MoveHead? ==> steps[0].id in t.nodes)
      && (Apply(t, steps[0]).Ok? && Acyclic(Apply(t, steps[0]).value.nodes) ==>
            KnownCheckouts(Apply(t, steps[0]).value, steps[1..])))
  }

  // ---- one step

  /** A step announces a new entry while the head names none. */
  ghost predicate Strays(t: Tree, step: Step) {
    && Entered(step).Some? && Entered(step).value !in t.nodes
    && t.head.Some? && t.head.value !in t.nodes
  }

  /** Straying is the only way a step goes wrong, and it always does. */
  lemma StepGoesWrongIff(t: Tree, step: Step)
    requires WellFormed(t)
    ensures Strays(t, step) <==> Apply(t, step).Err? || !WellFormed(Apply(t, step).value)
    ensures Apply(t, step).Err? <==> Strays(t, step) && t.head != Entered(step)
  {
    if Strays(t, step) && t.head == Entered(step) {
      OwnParentIsACycle(Apply(t, step).value.nodes, Entered(step).value);
    }
    if !Strays(t, step) {
      StepKeepsWellFormed(t, step);
    }
  }

  lemma OwnParentIsACycle(nodes: Nodes, id: Id)
    requires id in nodes && nodes[id].parent == Some(id)
    ensures !Acyclic(nodes)
  {
    forall rank
      ensures !Ranked(nodes, rank)
    {
      assert rank.Keys == nodes.Keys ==> !RankedAt(nodes, rank, id);
    }
  }

  lemma NewRootKeepsForest(nodes: Nodes, id: Id, node: TreeNode)
    requires nodes == map[] && node.parent.None? && node.children == []
    ensures Forest(nodes[id := node], [id])
  {
    assert Ranked(nodes[id := node], map[id := 0]);
  }

  /** A number no entry carries yet: the next arrival's. */
  lemma {:induction false} FreshRank(rank: map<Id, nat>, keys: set<Id>) returns (n: nat)
    requires keys <= rank.Keys
    ensures forall x :: x in keys ==> rank[x] < n
    decreases keys
  {
    if keys == {} {
      n := 0;
    } else {
      var x :| x in keys;
      n := FreshRank(rank, keys - {x});
      n := if rank[x] < n then n else rank[x] + 1;
    }
  }

  lemma NewChildKeepsAcyclic(nodes: Nodes, h: Id, id: Id, node: TreeNode)
    requires Acyclic(nodes) && h in nodes && id !in nodes && node.parent == Some(h)
    ensures Acyclic(Listed(nodes[id := node], h, id))
  {
    var after, rank := Listed(nodes[id := node], h, id), RankOf(nodes);
    var n := FreshRank(rank, rank.Keys);
    forall x | x in after
      ensures RankedAt(after, rank[id := n], x)
    {
      if x != id { assert RankedAt(nodes, rank, x); }
    }
    assert Ranked(after, rank[id := n]);
  }

  lemma NewChildLinkedAt(nodes: Nodes, roots: seq<Id>, h: Id, id: Id, node: TreeNode, x: Id)
    requires Linked(nodes, roots) && h in nodes && id !in nodes && (x in nodes || x == id)
    requires node.parent == Some(h) && node.children == []
    ensures x in Listed(nodes[id := node], h, id) && LinkedAt(Listed(nodes[id := node], h, id), x)
  {
    assert LinkedAt(nodes, h);
    NoDupConcat(nodes[h].children, [id]);
    if x in nodes {
      assert LinkedAt(nodes, x);
    }
  }

  lemma NewChildKeepsLinked(nodes: Nodes, roots: seq<Id>, h: Id, id: Id, node: TreeNode)
    requires Linked(nodes, roots) && h in nodes && id !in nodes
    requires node.parent == Some(h) && node.children == []
    ensures Linked(Listed(nodes[id := node], h, id), roots)
  {
    var after := Listed(nodes[id := node], h, id);
    forall x | x in after
      ensures LinkedAt(after, x)
    {
      NewChildLinkedAt(nodes, roots, h, id, node, x);
    }
  }

  lemma SameParentsKeepAcyclic(nodes: Nodes, after: Nodes)
    requires Acyclic(nodes) && after.Keys == nodes.Keys
    requires forall x :: x in nodes ==> after[x].parent == nodes[x].parent
    ensures Acyclic(after)
  {
    var rank := RankOf(nodes);
    forall x | x in after
      ensures RankedAt(after, rank, x)
    {
      assert RankedAt(nodes, rank, x);
    }
    assert Ranked(after, rank);
  }

  lemma PreviewKeepsForest(nodes: Nodes, roots: seq<Id>, id: Id, preview: string)
    requires Forest(nodes, roots) && id in nodes
    ensures Forest(nodes[id := nodes[id].(preview := preview)], roots)
  {
    var after := nodes[id := nodes[id].(preview := preview)];
    SameParentsKeepAcyclic(nodes, after);
    forall x | x in after
      ensures LinkedAt(after, x)
    {
      assert LinkedAt(nodes, x);
    }
  }

  lemma EnterKeepsWellFormed(t: Tree, id: Id, kind: EntryKind, preview: string)
    requires WellFormed(t) && (id in t.nodes || HeadKnown(t))
    ensures Enter(t, id, kind, preview).Ok?
    ensures WellFormed(Enter(t, id, kind, preview).value)
    ensures HeadKnown(Enter(t, id, kind, preview).value)
  {
    var entry := TreeNode(kind, t.head, [], preview);
    if id !in t.nodes {
      if t.head.None? {
        NewRootKeepsForest(t.nodes, id, entry);
        RootsAreEntries(t.nodes, t.roots);
        assert t.roots + [id] == [id];
      } else {
        NewChildKeepsAcyclic(t.nodes, t.head.value, id, entry);
        NewChildKeepsLinked(t.nodes, t.roots, t.head.value, id, entry);
      }
    }
  }

  /** Dropping a whole subtree, and its top from the list that names it, leaves a forest. */
  lemma WithoutKeepsForest(t: Tree, id: Id)
    requires Forest(t.nodes, t.roots) && id in t.nodes
    ensures Forest(Without(t, Subtree(t.nodes, id), id).nodes, Without(t, Subtree(t.nodes, id), id).roots)
  {
    var nodes, gone := t.nodes, Subtree(t.nodes, id);
    var after := Without(t, gone, id);
    var rank := map x | x in after.nodes :: RankOf(nodes)[x];
    forall x | x in after.nodes
      ensures RankedAt(after.nodes, rank, x) && LinkedAt(after.nodes, x)
    {
      WithoutKeepsLink(t, id, x);
    }
    assert Ranked(after.nodes, rank);
    DropNoDup(t.roots, {id});
  }

  lemma WithoutKeepsLink(t: Tree, id: Id, x: Id)
    requires Forest(t.nodes, t.roots) && id in t.nodes && x in t.nodes && !Below(t.nodes, x, id)
    ensures t.nodes[x].parent.Some? ==> !Below(t.nodes, ParentOf(t.nodes, x), id)
    ensures LinkedAt(Without(t, Subtree(t.nodes, id), id).nodes, x)
  {
    var after := Without(t, Subtree(t.nodes, id), id);
    assert LinkedAt(t.nodes, x);
    DropNoDup(t.nodes[x].children, {id});
    forall c | c in after.nodes[x].children
      ensures c in after.nodes
    {
      ChildIsBelow(t.nodes, t.roots, x, c);
    }
  }

  lemma RetryKeepsWellFormed(t: Tree, id: Id)
    requires WellFormed(t)
    ensures WellFormed(RetryTurn(t, id))
    ensures HeadKnown(t) || id in t.nodes ==> HeadKnown(RetryTurn(t, id))
  {
    if id in t.nodes {
      WithoutKeepsForest(t, id);
      var after := RetryTurn(t, id);
      if t.nodes[id].parent.None? {
        forall x | x in t.nodes
          ensures x in Subtree(t.nodes, id)
        {
          BelowTheRoot(t.nodes, t.roots, x);
          assert id in t.roots;
          assert PathTo(t.nodes, x)[0] == id;
        }
        assert after.nodes == map[];
      } else {
        var p := t.nodes[id].parent.value;
        assert LinkedAt(t.nodes, id);
        assert p in after.nodes;
      }
    }
  }

  /** What a retry deletes and what it leaves: gone is exactly what hangs below the turn, the turn
      included; everything else keeps its place, and only the turn's parent loses a child. */
  lemma RetryDeletesExactly(t: Tree, id: Id)
    requires WellFormed(t) && id in t.nodes
    ensures var v := RetryTurn(t, id);
      && (forall x :: x in v.nodes <==> x in t.nodes && id !in PathTo(t.nodes, x))
      && (forall x :: x in v.nodes ==> v.nodes[x] == t.nodes[x].(children :=
            if t.nodes[id].parent == Some(x) then Drop(t.nodes[x].children, {id}) else t.nodes[x].children))
      && v.head == (if t.head.Some? && (t.head.value !in t.nodes || id in PathTo(t.nodes, t.head.value))
                    then t.nodes[id].parent else t.head)
  {
    var v := RetryTurn(t, id);
    forall x | x in v.nodes && t.nodes[id].parent != Some(x)
      ensures v.nodes[x] == t.nodes[x]
    {
      assert LinkedAt(t.nodes, x);
      DropNone(t.nodes[x].children, {id});
    }
  }

  /** A step that does not stray keeps the tree well formed, and keeps a known head known unless it
      checks out a stranger. */
  lemma StepKeepsWellFormed(t: Tree, step: Step)
    requires WellFormed(t) && !Strays(t, step)
    ensures Apply(t, step).Ok? && WellFormed(Apply(t, step).value)
    ensures HeadKnown(t) && (step.MoveHead? ==> step.id in t.nodes) ==> HeadKnown(Apply(t, step).value)
  {
    match step
    case AddUser(id, text) => EnterKeepsWellFormed(t, id, User, SingleLine(text));
    case StartTurn(id) => EnterKeepsWellFormed(t, id, Turn, "");
    case TurnText(id, text) =>
      if t.openTurn == Some(id) && id in t.nodes {
        PreviewKeepsForest(t.nodes, t.roots, id, AppendPreview(t.nodes[id].preview, text));
      }
    case ToolResult(id, call, name) =>
      EnterKeepsWellFormed(t.(calls := t.calls - {call}), id, Tool, ToolLabel(Announced(t, call), name));
    case AddCompaction(id, tokens) => EnterKeepsWellFormed(t, id, Compaction, CompactionLabel(tokens));
    case DiscardTurn(id) => RetryKeepsWellFormed(t, id);
    case MoveHead(_) => assert Forest(t.nodes, t.roots);
    case Reset => EmptyIsWellFormed();
    case _ =>
  }

  lemma EmptyIsWellFormed()
    ensures WellFormed(Empty) && HeadKnown(Empty)
  {
    assert Ranked(map[], map[]);
  }

  // ---- what a step leaves behind

  /** The tree an announce leaves behind; where it throws, the new entry stays below a parent that is
      not there. */
  function Entering(t: Tree, id: Id, kind: EntryKind, preview: string): Tree {
    match Enter(t, id, kind, preview)
    case Ok(entered) => entered
    case Err(_) => t.(nodes := t.nodes[id := TreeNode(kind, t.head, [], preview)])
  }

  /** The tree a step leaves behind, thrown or not; of a retry in a forest with a cycle nothing is said. */
  ghost function Leaves(t: Tree, step: Step): Tree {
    match step
    case AddUser(id, text) => Entering(t, id, User, SingleLine(text))
    case StartTurn(id) => (match OpenTurn(t, id) case Ok(entered) => entered case Err(_) => Entering(t, id, Turn, ""))
    case TurnText(id, text) => AppendTurnText(t, id, text)
    case NoteToolCall(call, announced) => t.(calls := t.calls[call := announced])
    case ToolResult(id, call, name) =>
      Entering(t.(calls := t.calls - {call}), id, Tool, ToolLabel(Announced(t, call), name))
    case AddCompaction(id, tokens) => Entering(t, id, Compaction, CompactionLabel(tokens))
    case DiscardTurn(id) => if Acyclic(t.nodes) then RetryTurn(t, id) else t
    case CloseTurn => t.(openTurn := None)
    case MoveHead(id) => Checkout(t, id)
    case Reset => Empty
  }

  /** A step throws when it announces a new entry, other than the head, while the head names none. */
  ghost predicate Throws(t: Tree, step: Step) {
    Strays(t, step) && t.head != Entered(step)
  }

  lemma AppliesOrThrows(t: Tree, step: Step)
    requires Acyclic(t.nodes)
    ensures Apply(t, step) == if Throws(t, step) then Err(MissingHead) else Ok(Leaves(t, step))
  {
    hide RetryTurn, Acyclic, SingleLine, ToolLabel, CompactionLabel, AppendTurnText, Listed;
  }

  /** A tree as the wire's contract keeps it. */
  ghost predicate Good(t: Tree) {
    WellFormed(t) && HeadKnown(t)
  }

  lemma EmptyIsGood()
    ensures Good(Empty)
  {
    EmptyIsWellFormed();
  }

  /** No step throws in a good tree, and one that checks out known entries only leaves it good. */
  lemma LeavesGood(t: Tree, step: Step)
    requires Good(t)
    ensures !Throws(t, step)
    ensures (step.MoveHead? ==> step.id in t.nodes) ==> Good(Leaves(t, step))
  {
    StepKeepsWellFormed(t, step);
    WellFormedIsAcyclic(t);
    hide WellFormed, Leaves, Apply, Acyclic;
    AppliesOrThrows(t, step);
  }

  // ---- whole runs

  /** Whatever a run checks out, as long as nothing goes wrong it leaves one well-formed tree: the
      source's several-roots branch is never taken. */
  lemma {:induction false} RunKeepsWellFormed(t: Tree, steps: seq<Step>)
    requires WellFormed(t)
    ensures Run(t, steps).Ok? ==> WellFormed(Run(t, steps).value)
    decreases |steps|
  {
    if steps != [] {
      StepGoesWrongIff(t, steps[0]);
      if Strays(t, steps[0]) {
        StrayRunStops(t, steps);
      } else {
        RunKeepsWellFormed(Apply(t, steps[0]).value, steps[1..]);
      }
    }
  }

  lemma StrayRunStops(t: Tree, steps: seq<Step>)
    requires WellFormed(t) && steps != [] && Strays(t, steps[0])
    ensures Run(t, steps) == Err(if t.head == Entered(steps[0]) then OwnParent else MissingHead)
  {
    StepGoesWrongIff(t, steps[0]);
    if t.head == Entered(steps[0]) {
      OwnParentIsACycle(Apply(t, steps[0]).value.nodes, Entered(steps[0]).value);
    }
  }

  lemma OkRunSteps(t: Tree, steps: seq<Step>)
    requires WellFormed(t) && steps != [] && Run(t, steps).Ok?
    ensures Apply(t, steps[0]).Ok? && WellFormed(Apply(t, steps[0]).value)
    ensures Run(t, steps) == Run(Apply(t, steps[0]).value, steps[1..])
  {
    if Strays(t, steps[0]) {
      StrayRunStops(t, steps);
      assert false;
    }
    StepKeepsWellFormed(t, steps[0]);
  }

  /** A run that only checks out announced entries never goes wrong, and its head always names an
      entry once there is one. */
  lemma {:induction false} AnnouncedRunNeverFails(t: Tree, steps: seq<Step>)
    requires WellFormed(t) && HeadKnown(t) && KnownCheckouts(t, steps)
    ensures Run(t, steps).Ok?
    ensures WellFormed(Run(t, steps).value) && HeadKnown(Run(t, steps).value)
    decreases |steps|
  {
    if steps != [] {
      StepKeepsWellFormed(t, steps[0]);
      AnnouncedRunNeverFails(Apply(t, steps[0]).value, steps[1..]);
    }
  }

  /** One more step of such a run. */
  lemma {:induction false} RunExtends(t: Tree, steps: seq<Step>, step: Step)
    requires Good(t) && KnownCheckouts(t, steps) && Run(t, steps).Ok?
    requires step.MoveHead? ==> step.id in Run(t, steps).value.nodes
    ensures Run(t, steps + [step]) == Ok(Leaves(Run(t, steps).value, step)) && KnownCheckouts(t, steps + [step])
    decreases |steps|
  {
    hide WellFormed, Leaves, Apply, HeadKnown;
    var longer := steps + [step];
    var first := longer[0];
    FirstOfRun(t, first);
    if steps == [] {
      assert longer[1..] == [];
    } else {
      assert longer[1..] == steps[1..] + [step];
      RunExtends(Leaves(t, first), steps[1..], step);
    }
  }

  lemma FirstOfRun(t: Tree, step: Step)
    requires Good(t)
    ensures Acyclic(t.nodes) && Apply(t, step) == Ok(Leaves(t, step))
    ensures (step.MoveHead? ==> step.id in t.nodes) ==> Good(Leaves(t, step)) && Acyclic(Leaves(t, step).nodes)
  {
    hide WellFormed, Leaves, Apply, HeadKnown, Acyclic;
    WellFormedIsAcyclic(t);
    LeavesGood(t, step);
    AppliesOrThrows(t, step);
    if step.MoveHead? ==> step.id in t.nodes {
      WellFormedIsAcyclic(Leaves(t, step));
    }
  }

  /** The comment on `checkout` lets the following replay land an unannounced target. It cannot when that
      replay starts with a new entry: one other than the target throws, and the target itself becomes its
      own parent. */
  lemma UnannouncedCheckoutGoesWrong(t: Tree, target: Id, first: Id, text: string)
    requires WellFormed(t) && target !in t.nodes && first !in t.nodes
    ensures Run(Checkout(t, target), [AddUser(first, text)])
      == Err(if target == first then OwnParent else MissingHead)
  {
    assert Forest(t.nodes, t.roots);
    StrayRunStops(Checkout(t, target), [AddUser(first, text)]);
  }

  /** A replay that first names a known entry repairs the head: from there nothing goes wrong. */
  lemma KnownEntryRepairsHead(t: Tree, target: Id, known: Id, text: string)
    requires WellFormed(t) && known in t.nodes
    ensures Run(Checkout(t, target), [AddUser(known, text)]).Ok?
    ensures HeadKnown(Run(Checkout(t, target), [AddUser(known, text)]).value)
  {
    var steps := [AddUser(known, text)];
    var repaired := Enter(Checkout(t, target), known, User, SingleLine(text)).value;
    assert repaired.nodes == t.nodes;
    assert Run(repaired, steps[1..]) == Ok(repaired);
  }
}
