/** Replay, retry and streaming over whole runs of the session tree: a replay of known entries
    changes nothing, a replay that goes on hangs exactly the new entries, a discarded attempt is
    undone exactly, and a turn's preview is that of everything streamed into it. */
module TreeReplay {
  import opened Wrappers
  import opened Sequences
  import opened Previews
  import opened Forests
  import opened Trees
  import opened TreeRows

  /** The steps a replay pass consists of: announcements, turn text and tool calls. */
  predicate Announcing(step: Step) {
    Entered(step).Some? || step.TurnText? || step.NoteToolCall?
  }

  predicate AllAnnouncing(steps: seq<Step>) {
    forall i :: 0 <= i < |steps| ==> Announcing(steps[i])
  }

  /** The entries a run announces, in order. */
  function EnteredIds(steps: seq<Step>): seq<Id> {
    if steps == [] then []
    else (if Entered(steps[0]).Some? then [Entered(steps[0]).value] else []) + EnteredIds(steps[1..])
  }

  // ---- known entries

  lemma KnownStep(t: Tree, step: Step)
    requires Acyclic(t.nodes) && t.openTurn.None? && Announcing(step)
    requires Entered(step).Some? ==> Entered(step).value in t.nodes
    ensures Apply(t, step).Ok?
    ensures var u := Apply(t, step).value;
      && u.nodes == t.nodes && u.roots == t.roots && u.openTurn.None?
      && u.head == (if Entered(step).Some? then Entered(step) else t.head)
  {
  }

  /** A pass over entries the tree already holds only moves the head, to the last one it names:
      no entry, child list, preview or root changes. */
  lemma {:induction false} ReplayOfKnownEntries(t: Tree, steps: seq<Step>)
    requires WellFormed(t) && t.openTurn.None? && AllAnnouncing(steps)
    requires forall id :: id in EnteredIds(steps) ==> id in t.nodes
    ensures Run(t, steps).Ok?
    ensures var u := Run(t, steps).value; var ids := EnteredIds(steps);
      && u.nodes == t.nodes && u.roots == t.roots && u.openTurn.None?
      && u.head == (if ids == [] then t.head else Some(ids[|ids| - 1]))
    decreases |steps|
  {
    hide Apply, Forest, Acyclic;
    if steps != [] {
      assert Acyclic(t.nodes) by {
        WellFormedIsAcyclic(t);
      }
      assert Announcing(steps[0]);
      KnownStep(t, steps[0]);
      StepKeepsWellFormed(t, steps[0]);
      var u := Apply(t, steps[0]).value;
      WellFormedIsAcyclic(u);
      assert forall id :: id in EnteredIds(steps[1..]) ==> id in EnteredIds(steps);
      ReplayOfKnownEntries(u, steps[1..]);
    }
  }

  /** Re-announcing the chain from the root to the head, as a reconnect does, is the identity on
      entries, roots and head, and so on the rows shown. */
  lemma ReplayOfActiveChain(t: Tree, steps: seq<Step>)
    requires WellFormed(t) && HeadKnown(t) && t.head.Some? && AllAnnouncing(steps)
    requires EnteredIds(steps) == PathTo(t.nodes, t.head.value)
    ensures Run(t, [CloseTurn] + steps).Ok?
    ensures var u := Run(t, [CloseTurn] + steps).value;
      && u.nodes == t.nodes && u.roots == t.roots && u.head == t.head && u.openTurn.None?
      && WellFormed(u) && Rows(u) == Rows(t)
  {
    WellFormedIsAcyclic(t);
    hide Forest, Rows, Run;
    RunCloses(t, steps);
    ReplayOfKnownEntries(t.(openTurn := None), steps);
    RowsDependOnForest(t, Run(t, [CloseTurn] + steps).value);
  }

  lemma RunCloses(t: Tree, steps: seq<Step>)
    requires Acyclic(t.nodes)
    ensures Run(t, [CloseTurn] + steps) == Run(t.(openTurn := None), steps)
  {
    ApplyClose(t);
    assert ([CloseTurn] + steps)[1..] == steps;
  }

  lemma ApplyClose(t: Tree)
    requires Acyclic(t.nodes)
    ensures Apply(t, CloseTurn) == Ok(t.(openTurn := None))
  {
  }

  // ---- new entries

  /** `u` is `t` with the chain `ids` hung below `t`'s head, and nothing else changed. */
  ghost predicate Hanging(t: Tree, u: Tree, ids: seq<Id>) {
    && NoDup(ids)
    && (forall x :: x in ids ==> x !in t.nodes)
    && u.nodes.Keys == t.nodes.Keys + Elements(ids)
    && (forall x {:trigger KeptAt(t, u, ids, x)} :: x in t.nodes ==> KeptAt(t, u, ids, x))
    && (forall i {:trigger ChainedAt(t, u, ids, i)} :: 0 <= i < |ids| ==> ChainedAt(t, u, ids, i))
    && u.roots == (if t.head.None? && ids != [] then t.roots + [ids[0]] else t.roots)
    && u.head == (if ids == [] then t.head else Some(ids[|ids| - 1]))
    && (u.openTurn.Some? ==> u.openTurn.value in ids)
  }

  /** An old entry is as it was, but for the chain's top among the children of the old head. */
  ghost predicate KeptAt(t: Tree, u: Tree, ids: seq<Id>, x: Id)
    requires x in t.nodes
  {
    x in u.nodes &&
    u.nodes[x] == t.nodes[x].(children :=
      if t.head == Some(x) && ids != [] then t.nodes[x].children + [ids[0]] else t.nodes[x].children)
  }

  /** The chain's i-th entry hangs below the one before it and lists only the one after it. */
  ghost predicate ChainedAt(t: Tree, u: Tree, ids: seq<Id>, i: nat)
    requires i < |ids|
  {
    && ids[i] in u.nodes
    && u.nodes[ids[i]].parent == (if i == 0 then t.head else Some(ids[i - 1]))
    && u.nodes[ids[i]].children == (if i + 1 < |ids| then [ids[i + 1]] else [])
  }

  lemma HangingStart(t: Tree)
    requires t.openTurn.None?
    ensures Hanging(t, t, [])
  {
  }

  lemma HangingEnter(t: Tree, u: Tree, ids: seq<Id>, id: Id, kind: EntryKind, preview: string)
    requires HeadKnown(t) && Hanging(t, u, ids) && id !in u.nodes
    ensures HeadKnown(u) && Enter(u, id, kind, preview).Ok?
    ensures Hanging(t, Enter(u, id, kind, preview).value, ids + [id])
  {
    if ids != [] { assert ids[|ids| - 1] in ids; }
    var v := Enter(u, id, kind, preview).value;
    var longer := ids + [id];
    NoDupConcat(ids, [id]);
    assert Elements(longer) == Elements(ids) + {id};
    assert forall i :: 0 <= i < |longer| ==> ChainedAt(t, v, longer, i) by {
      ChainGrows(t, u, ids, id, kind, preview);
    }
    assert forall x :: x in t.nodes ==> KeptAt(t, v, longer, x) by {
      KeptStays(t, u, ids, id, kind, preview);
    }
  }

  lemma ChainGrows(t: Tree, u: Tree, ids: seq<Id>, id: Id, kind: EntryKind, preview: string)
    requires HeadKnown(t) && Hanging(t, u, ids) && id !in u.nodes && Enter(u, id, kind, preview).Ok?
    ensures forall i :: 0 <= i < |ids + [id]| ==> ChainedAt(t, Enter(u, id, kind, preview).value, ids + [id], i)
  {
    var v, longer := Enter(u, id, kind, preview).value, ids + [id];
    forall i | 0 <= i < |longer|
      ensures ChainedAt(t, v, longer, i)
    {
      if i < |ids| {
        assert ChainedAt(t, u, ids, i) && ids[i] in ids;
      }
    }
  }

  lemma KeptStays(t: Tree, u: Tree, ids: seq<Id>, id: Id, kind: EntryKind, preview: string)
    requires HeadKnown(t) && Hanging(t, u, ids) && id !in u.nodes && Enter(u, id, kind, preview).Ok?
    ensures forall x :: x in t.nodes ==> KeptAt(t, Enter(u, id, kind, preview).value, ids + [id], x)
  {
    var v, longer := Enter(u, id, kind, preview).value, ids + [id];
    forall x | x in t.nodes
      ensures KeptAt(t, v, longer, x)
    {
      assert KeptAt(t, u, ids, x);
      assert ids != [] ==> ids[|ids| - 1] in ids;
    }
  }

  lemma HangingText(t: Tree, u: Tree, ids: seq<Id>, id: Id, text: string)
    requires Hanging(t, u, ids)
    ensures Hanging(t, AppendTurnText(u, id, text), ids)
  {
    var v := AppendTurnText(u, id, text);
    forall i | 0 <= i < |ids|
      ensures ChainedAt(t, v, ids, i)
    {
      assert ChainedAt(t, u, ids, i);
    }
    forall x | x in t.nodes
      ensures KeptAt(t, v, ids, x)
    {
      assert KeptAt(t, u, ids, x);
    }
  }

  /** Only the links count: what else `u` carries may differ. */
  lemma HangingSame(t: Tree, u: Tree, v: Tree, ids: seq<Id>)
    requires Hanging(t, u, ids) && v.nodes == u.nodes && v.roots == u.roots && v.head == u.head
    requires v.openTurn.Some? ==> v.openTurn.value in ids
    ensures Hanging(t, v, ids)
  {
    forall i | 0 <= i < |ids|
      ensures ChainedAt(t, v, ids, i)
    {
      assert ChainedAt(t, u, ids, i);
    }
    forall x | x in t.nodes
      ensures KeptAt(t, v, ids, x)
    {
      assert KeptAt(t, u, ids, x);
    }
  }

  /** A step that announces something new hangs it. */
  lemma HangingNew(t: Tree, u: Tree, ids: seq<Id>, step: Step)
    requires HeadKnown(t) && Hanging(t, u, ids) && Acyclic(u.nodes)
    requires Entered(step).Some? && Entered(step).value !in u.nodes
    ensures HeadKnown(u) && Apply(u, step).Ok?
    ensures Hanging(t, Apply(u, step).value, ids + [Entered(step).value])
  {
    match step
    case AddUser(id, text) => HangingEnter(t, u, ids, id, User, SingleLine(text));
    case StartTurn(id) =>
      HangingEnter(t, u, ids, id, Turn, "");
      HangingSame(t, Enter(u, id, Turn, "").value, OpenTurn(u, id).value, ids + [id]);
    case ToolResult(id, call, name) =>
      var rest := u.(calls := u.calls - {call});
      HangingSame(t, u, rest, ids);
      HangingEnter(t, rest, ids, id, Tool, ToolLabel(Announced(u, call), name));
    case AddCompaction(id, tokens) => HangingEnter(t, u, ids, id, Compaction, CompactionLabel(tokens));
  }

  /** Turn text and tool calls hang nothing. */
  lemma HangingQuiet(t: Tree, u: Tree, ids: seq<Id>, step: Step)
    requires Hanging(t, u, ids) && Acyclic(u.nodes) && (step.TurnText? || step.NoteToolCall?)
    ensures Apply(u, step).Ok?
    ensures Hanging(t, Apply(u, step).value, ids)
  {
    match step
    case TurnText(id, text) => HangingText(t, u, ids, id, text);
    case NoteToolCall(_, _) => HangingSame(t, u, Apply(u, step).value, ids);
  }

  lemma {:induction false} HangingRun(t: Tree, u: Tree, ids: seq<Id>, steps: seq<Step>)
    requires HeadKnown(t) && Hanging(t, u, ids) && WellFormed(u) && AllAnnouncing(steps)
    requires NoDup(ids + EnteredIds(steps)) && forall id :: id in EnteredIds(steps) ==> id !in t.nodes
    ensures Run(u, steps).Ok?
    ensures Hanging(t, Run(u, steps).value, ids + EnteredIds(steps))
    decreases |steps|
  {
    hide Apply;
    if steps == [] {
      assert ids + [] == ids;
    } else {
      assert Announcing(steps[0]);
      StepKeepsWellFormed(u, steps[0]);
      var rest := EnteredIds(steps[1..]);
      if Entered(steps[0]).Some? {
        var id := Entered(steps[0]).value;
        assert EnteredIds(steps) == [id] + rest;
        assert ids + EnteredIds(steps) == ids + [id] + rest;
        NewToTheChain(u, t, ids, id, rest);
        HangingNew(t, u, ids, steps[0]);
        HangingRun(t, Apply(u, steps[0]).value, ids + [id], steps[1..]);
      } else {
        assert EnteredIds(steps) == rest;
        HangingQuiet(t, u, ids, steps[0]);
        HangingRun(t, Apply(u, steps[0]).value, ids, steps[1..]);
      }
    }
  }

  lemma NewToTheChain(u: Tree, t: Tree, ids: seq<Id>, id: Id, rest: seq<Id>)
    requires NoDup(ids + [id] + rest) && id !in t.nodes && u.nodes.Keys == t.nodes.Keys + Elements(ids)
    ensures id !in u.nodes
  {
    var all := ids + [id] + rest;
    forall i | 0 <= i < |ids|
      ensures ids[i] != id
    {
      assert all[i] != all[|ids|];
    }
  }

  /** A pass over a known prefix and then new entries moves to the last known one and hangs exactly
      the new ones below it, in order; with no known one, as on a fresh attach, below the head. */
  lemma ReplayHangsOnlyTheSuffix(t: Tree, known: seq<Step>, added: seq<Step>)
    requires WellFormed(t) && t.openTurn.None? && AllAnnouncing(known) && AllAnnouncing(added)
    requires forall id :: id in EnteredIds(known) ==> id in t.nodes
    requires EnteredIds(known) == [] ==> HeadKnown(t)
    requires NoDup(EnteredIds(added)) && forall id :: id in EnteredIds(added) ==> id !in t.nodes
    ensures Run(t, known).Ok? && WellFormed(Run(t, known).value)
    ensures var ids, at := EnteredIds(known), Run(t, known).value;
      && at.nodes == t.nodes && at.roots == t.roots
      && at.head == (if ids == [] then t.head else Some(ids[|ids| - 1]))
      && Run(at, added).Ok? && Hanging(at, Run(at, added).value, EnteredIds(added))
  {
    ReplayOfKnownEntries(t, known);
    RunKeepsWellFormed(t, known);
    var at := Run(t, known).value;
    assert EnteredIds(known) != [] ==> EnteredIds(known)[|EnteredIds(known)| - 1] in EnteredIds(known);
    HangingStart(at);
    assert [] + EnteredIds(added) == EnteredIds(added);
    HangingRun(at, at, [], added);
  }

  // ---- a discarded attempt

  /** Below a hung chain's top is the chain, and only the chain. */
  lemma HungSubtree(t: Tree, u: Tree, ids: seq<Id>)
    requires Acyclic(t.nodes) && Acyclic(u.nodes) && Hanging(t, u, ids) && ids != []
    ensures Subtree(u.nodes, ids[0]) == Elements(ids)
  {
    forall x | x in t.nodes
      ensures u.nodes[x].parent == t.nodes[x].parent
    {
      assert KeptAt(t, u, ids, x);
    }
    forall x | x in u.nodes
      ensures x in Subtree(u.nodes, ids[0]) <==> x in ids
    {
      if x in ids {
        var i :| 0 <= i < |ids| && ids[i] == x;
        ChainIsBelow(t, u, ids, i);
      } else {
        PathAgree(t.nodes, u.nodes, x);
        assert ids[0] in ids;
      }
    }
  }

  lemma {:induction false} ChainIsBelow(t: Tree, u: Tree, ids: seq<Id>, i: nat)
    requires Acyclic(u.nodes) && Hanging(t, u, ids) && i < |ids|
    ensures ids[i] in u.nodes && Below(u.nodes, ids[i], ids[0])
  {
    assert ids[i] in ids;
    if i > 0 {
      ChainIsBelow(t, u, ids, i - 1);
      assert ChainedAt(t, u, ids, i);
      assert ParentOf(u.nodes, ids[i]) == ids[i - 1];
    }
  }

  lemma DropHungChain(t: Tree, u: Tree, ids: seq<Id>)
    requires Forest(t.nodes, t.roots) && HeadKnown(t) && Acyclic(u.nodes) && Hanging(t, u, ids) && ids != []
    ensures var v := RetryTurn(u, ids[0]);
      v.nodes == t.nodes && v.roots == t.roots && v.head == t.head
  {
    var top := ids[0];
    HungSubtree(t, u, ids);
    assert top in ids && ids[|ids| - 1] in ids;
    assert top in u.nodes && u.nodes[top].parent == t.head by { assert ChainedAt(t, u, ids, 0); }
    KeptNodes(t, u, ids);
    DropLast(t.roots, top);
  }

  lemma KeptNodes(t: Tree, u: Tree, ids: seq<Id>)
    requires Linked(t.nodes, t.roots) && Hanging(t, u, ids) && ids != []
    ensures Without(u, Elements(ids), ids[0]).nodes == t.nodes
  {
    var kept := Without(u, Elements(ids), ids[0]);
    assert kept.nodes.Keys == t.nodes.Keys;
    forall x | x in t.nodes
      ensures kept.nodes[x] == t.nodes[x]
    {
      DroppedChild(t, u, ids, x);
    }
  }

  lemma DroppedChild(t: Tree, u: Tree, ids: seq<Id>, x: Id)
    requires Linked(t.nodes, t.roots) && Hanging(t, u, ids) && ids != [] && x in t.nodes
    ensures x in u.nodes && u.nodes[x].(children := Drop(u.nodes[x].children, {ids[0]})) == t.nodes[x]
  {
    assert LinkedAt(t.nodes, x) && KeptAt(t, u, ids, x);
    assert ids[0] in ids;
    DropLast(t.nodes[x].children, ids[0]);
  }

  /** Opening a turn, streaming into it and landing its tool results, and then retrying it, puts
      every entry, the roots and the head back to what they were before the attempt. */
  lemma RetryUndoesTheAttempt(t: Tree, turn: Id, attempt: seq<Step>)
    requires WellFormed(t) && HeadKnown(t) && turn !in t.nodes && AllAnnouncing(attempt)
    requires NoDup([turn] + EnteredIds(attempt))
    requires forall id :: id in EnteredIds(attempt) ==> id !in t.nodes
    ensures var begun := Apply(t, StartTurn(turn));
      && begun.Ok? && WellFormed(begun.value)
      && Run(begun.value, attempt).Ok? && WellFormed(Run(begun.value, attempt).value)
      && var v := RetryTurn(Run(begun.value, attempt).value, turn);
         v.nodes == t.nodes && v.roots == t.roots && v.head == t.head
  {
    hide Run, Hanging, RetryTurn, EnteredIds, Acyclic, NoDup;
    WellFormedIsAcyclic(t);
    var quiet := t.(openTurn := None);
    var begun := Apply(t, StartTurn(turn)).value;
    HangingStart(quiet);
    HangingNew(quiet, quiet, [], StartTurn(turn));
    assert [] + [turn] == [turn];
    StepKeepsWellFormed(t, StartTurn(turn));
    HangingRun(quiet, begun, [turn], attempt);
    RunKeepsWellFormed(begun, attempt);
    WellFormedIsAcyclic(begun);
    WellFormedIsAcyclic(Run(begun, attempt).value);
    DropHungChain(quiet, Run(begun, attempt).value, [turn] + EnteredIds(attempt));
  }

  // ---- streaming into a turn

  /** Steps that leave the open turn open. */
  predicate KeepsTurnOpen(step: Step) {
    !(step.StartTurn? || step.DiscardTurn? || step.CloseTurn? || step.MoveHead? || step.Reset?)
  }

  function Delta(step: Step, id: Id): string {
    if step.TurnText? && step.id == id then step.text else ""
  }

  /** The text a run streams into turn `id`. */
  function Streamed(steps: seq<Step>, id: Id): string {
    if steps == [] then "" else Delta(steps[0], id) + Streamed(steps[1..], id)
  }

  lemma EnterKeepsPreview(t: Tree, added: Id, kind: EntryKind, preview: string, id: Id)
    requires id in t.nodes && Enter(t, added, kind, preview).Ok?
    ensures var u := Enter(t, added, kind, preview).value;
      && id in u.nodes && u.openTurn == t.openTurn
      && u.nodes[id].preview == t.nodes[id].preview && u.nodes[id].kind == t.nodes[id].kind
  {
  }

  /** A step that streams nothing into the open turn leaves its preview alone. */
  lemma OtherStepKeepsPreview(t: Tree, id: Id, step: Step)
    requires Acyclic(t.nodes) && t.openTurn == Some(id) && id in t.nodes && KeepsTurnOpen(step)
    requires Apply(t, step).Ok? && !(step.TurnText? && step.id == id)
    ensures var u := Apply(t, step).value;
      && id in u.nodes && u.openTurn == Some(id)
      && u.nodes[id].preview == t.nodes[id].preview && u.nodes[id].kind == t.nodes[id].kind
  {
    match step
    case AddUser(added, text) => EnterKeepsPreview(t, added, User, SingleLine(text), id);
    case ToolResult(added, call, name) =>
      EnterKeepsPreview(t.(calls := t.calls - {call}), added, Tool, ToolLabel(Announced(t, call), name), id);
    case AddCompaction(added, tokens) => EnterKeepsPreview(t, added, Compaction, CompactionLabel(tokens), id);
    case _ =>
  }

  lemma OpenTurnStep(t: Tree, id: Id, text: string, step: Step)
    requires Acyclic(t.nodes) && t.openTurn == Some(id) && id in t.nodes && KeepsTurnOpen(step)
    requires t.nodes[id].preview == TurnPreview(text) && Apply(t, step).Ok?
    ensures var u := Apply(t, step).value;
      && id in u.nodes && u.openTurn == Some(id)
      && u.nodes[id].preview == TurnPreview(text + Delta(step, id)) && u.nodes[id].kind == t.nodes[id].kind
  {
    if step.TurnText? && step.id == id {
      AppendIsPreviewOfWhole(text, step.text);
    } else {
      OtherStepKeepsPreview(t, id, step);
      assert text + Delta(step, id) == text;
    }
  }

  /** Whatever else happens while a turn stays open, its preview is that of all the text streamed
      into it, however the stream was cut. */
  lemma {:induction false} OpenTurnPreview(t: Tree, id: Id, text: string, steps: seq<Step>)
    requires WellFormed(t) && t.openTurn == Some(id) && id in t.nodes
    requires t.nodes[id].preview == TurnPreview(text)
    requires forall i :: 0 <= i < |steps| ==> KeepsTurnOpen(steps[i])
    requires Run(t, steps).Ok?
    ensures var u := Run(t, steps).value;
      && id in u.nodes && u.openTurn == Some(id)
      && u.nodes[id].preview == TurnPreview(text + Streamed(steps, id)) && u.nodes[id].kind == t.nodes[id].kind
    decreases |steps|
  {
    hide TurnPreview, Apply;
    if steps == [] {
      assert text + Streamed(steps, id) == text;
    } else {
      OkRunSteps(t, steps);
      OpenTurnStep(t, id, text, steps[0]);
      var delta := Delta(steps[0], id);
      OpenTurnPreview(Apply(t, steps[0]).value, id, text + delta, steps[1..]);
      Regroup(text, delta, Streamed(steps[1..], id));
    }
  }
}
