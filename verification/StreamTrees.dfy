/** What each wire event does to the session tree of its stream (`mode.ts`), said of the tree's contents. */
module StreamTrees {
  import opened Wrappers
  import opened Streams
  import opened Sequences
  import opened Forests
  import Trees
  import opened TreeEntries
  import opened Previews

  /** The known entry took the head, and nothing else changed in the nodes. */
  predicate TookHead(t: Trees.Tree, u: Trees.Tree, id: Id) {
    u.nodes == t.nodes && u.roots == t.roots && u.head == Some(id)
  }

  /** What an event's tree is, for events that announce an entry. */
  lemma GrownByStep(s: Stream, e: Event, now: Clock, step: Trees.Step)
    requires Trees.Good(s.tree) && TreeStep(e) == Some(step)
    ensures Acyclic(s.tree.nodes)
    ensures Trees.Apply(s.tree, step).Ok? ==> FoldStream(s, e, now).tree == Trees.Apply(s.tree, step).value
  {
    Trees.WellFormedIsAcyclic(s.tree);
    Trees.AppliesOrThrows(s.tree, step);
    hide FoldFacts, Trees.Apply, Trees.WellFormed, Acyclic;
  }

  /** A delivered message, a started turn, a tool result and a compaction step enter the tree as their kinds
      say, each under the row that says what it is; one already there only takes the head, and a turn
      already there does not open again. */
  lemma EventEnters(s: Stream, e: Event, now: Clock)
    requires Trees.Good(s.tree)
    ensures var t, u := s.tree, FoldStream(s, e, now).tree;
      e.UserMessage? ==>
        && (if e.entry in t.nodes then TookHead(t, u, e.entry)
            else NewlyEntered(t, u, e.entry) && u.nodes[e.entry].kind == User
                 && IsOneLineOf(u.nodes[e.entry].preview, e.text))
        && u.openTurn == t.openTurn && u.calls == t.calls
    ensures var t, u := s.tree, FoldStream(s, e, now).tree;
      e.TurnStarted? ==>
        && (if e.turn in t.nodes then TookHead(t, u, e.turn) && u.openTurn == t.openTurn
            else NewlyEntered(t, u, e.turn) && u.nodes[e.turn].kind == Turn && u.nodes[e.turn].preview == ""
                 && u.openTurn == Some(e.turn))
        && u.calls == t.calls
    ensures var t, u := s.tree, FoldStream(s, e, now).tree;
      e.ToolResult? ==>
        && (if e.entry in t.nodes then TookHead(t, u, e.entry)
            else NewlyEntered(t, u, e.entry) && u.nodes[e.entry].kind == EntryKind.Tool
                 && IsToolRow(u.nodes[e.entry].preview,
                              if e.call in t.calls then Some(t.calls[e.call]) else None, e.tool))
        && u.openTurn == t.openTurn && u.calls == t.calls - {e.call}
    ensures var t, u := s.tree, FoldStream(s, e, now).tree;
      e.CompactionStep? ==>
        && (if e.entry in t.nodes then TookHead(t, u, e.entry)
            else NewlyEntered(t, u, e.entry) && u.nodes[e.entry].kind == Compaction
                 && IsCompactionRow(u.nodes[e.entry].preview, e.usage.total))
        && u.openTurn == t.openTurn && u.calls == t.calls
  {
    hide FoldStream, Trees.Apply, Trees.WellFormed, Trees.HeadKnown, Acyclic, IsOneLineOf, IsToolRow, IsCompactionRow;
    if TreeStep(e).Some? && Trees.Entered(TreeStep(e).value).Some? {
      var step := TreeStep(e).value;
      GrownByStep(s, e, now, step);
      if Trees.Entered(step).value in s.tree.nodes {
        KnownEntryIs(s.tree, step);
      } else {
        NewEntryIs(s.tree, step);
      }
    }
  }

  /** The text reaches the row of the open turn alone. */
  ghost predicate GrewBy(t: Trees.Tree, u: Trees.Tree, turn: Id, sofar: string, text: string) {
    if t.openTurn != Some(turn) || turn !in t.nodes then u == t
    else
      && u == t.(nodes := u.nodes) && u.nodes.Keys == t.nodes.Keys
      && (forall x :: x in t.nodes && x != turn ==> u.nodes[x] == t.nodes[x])
      && u.nodes[turn] == t.nodes[turn].(preview := u.nodes[turn].preview)
      && (t.nodes[turn].preview == TurnPreview(sofar) ==> u.nodes[turn].preview == TurnPreview(sofar + text))
  }

  lemma TextGrows(t: Trees.Tree, turn: Id, sofar: string, text: string)
    ensures GrewBy(t, Trees.AppendTurnText(t, turn, text), turn, sofar, text)
  {
    AppendIsPreviewOfWhole(sofar, text);
    hide TurnPreview, AppendPreview;
  }

  /** A delta grows the row of the open turn alone: a row that shows the turn's text so far shows all of it
      after. */
  lemma DeltaGrowsTheOpenTurn(s: Stream, e: Event, now: Clock, sofar: string)
    requires Trees.Good(s.tree) && e.TextDelta?
    ensures GrewBy(s.tree, FoldStream(s, e, now).tree, e.turn, sofar, e.text)
  {
    GrownByStep(s, e, now, Trees.TurnText(e.turn, e.text));
    TextGrows(s.tree, e.turn, sofar, e.text);
    hide FoldStream, GrewBy, Trees.WellFormed, Trees.HeadKnown, Acyclic, Trees.AppendTurnText;
  }

  /** A call is noted, a replay closes the open turn, and a checkout moves the head and closes it too. */
  lemma EventMoves(s: Stream, e: Event, now: Clock)
    requires Trees.Good(s.tree)
    ensures var t, u := s.tree, FoldStream(s, e, now).tree;
      && (e.ToolCalled? ==> u == t.(calls := t.calls[e.call := e.made]))
      && (e.ReplayBegin? ==> u == t.(openTurn := None))
      && (e.CheckedOut? ==> u == t.(openTurn := None, head := Some(e.entry)))
  {
    hide FoldStream, Trees.WellFormed, Trees.HeadKnown, Acyclic, Trees.RetryTurn, Trees.AppendTurnText, Trees.Enter;
    if e.ToolCalled? || e.ReplayBegin? || e.CheckedOut? {
      GrownByStep(s, e, now, TreeStep(e).value);
    }
  }

  /** Every other event leaves the tree alone. */
  lemma OtherEventsLeaveIt(s: Stream, e: Event, now: Clock)
    requires !e.UserMessage? && !e.TurnStarted? && !e.ToolResult? && !e.CompactionStep? && !e.TextDelta?
    requires !e.TurnRetried? && !e.ToolCalled? && !e.ReplayBegin? && !e.CheckedOut?
    ensures FoldStream(s, e, now).tree == s.tree
  {
    assert TreeStep(e).None?;
    Treeless(s, e, now);
    hide FoldStream, FoldFacts, TreeStep;
  }

  /** What hangs below the turn, the turn included, is gone; the others keep their rows and places, only the
      turn's parent loses a child, and a head that is gone falls back to that parent. */
  ghost predicate Discarded(t: Trees.Tree, u: Trees.Tree, turn: Id)
    requires Acyclic(t.nodes)
  {
    && u.calls == t.calls && u.openTurn == (if t.openTurn == Some(turn) then None else t.openTurn)
    && if turn !in t.nodes then u.nodes == t.nodes && u.roots == t.roots && u.head == t.head
       else
         && (forall x :: x in u.nodes <==> x in t.nodes && turn !in PathTo(t.nodes, x))
         && (forall x :: x in u.nodes ==> u.nodes[x] == t.nodes[x].(children :=
               if t.nodes[turn].parent == Some(x) then Drop(t.nodes[x].children, {turn}) else t.nodes[x].children))
         && u.roots == Drop(t.roots, {turn})
         && u.head == (if t.head.Some? && (t.head.value !in t.nodes || turn in PathTo(t.nodes, t.head.value))
                       then t.nodes[turn].parent else t.head)
  }

  lemma RetryFields(t: Trees.Tree, turn: Id)
    requires Acyclic(t.nodes)
    ensures var u := Trees.RetryTurn(t, turn);
      && u.calls == t.calls && u.openTurn == (if t.openTurn == Some(turn) then None else t.openTurn)
      && (turn !in t.nodes ==> u.nodes == t.nodes && u.roots == t.roots && u.head == t.head)
      && (turn in t.nodes ==> u.roots == Drop(t.roots, {turn}))
  {
    hide Acyclic, Subtree, Trees.Unlisted, Drop;
  }

  lemma RetryDiscards(t: Trees.Tree, turn: Id)
    requires Trees.Good(t)
    ensures Acyclic(t.nodes) && Discarded(t, Trees.RetryTurn(t, turn), turn)
  {
    hide Forest, Acyclic, Subtree, PathTo, Drop, Trees.RetryTurn, Trees.WellFormed, Trees.HeadKnown;
    Trees.WellFormedIsAcyclic(t);
    RetryFields(t, turn);
    if turn in t.nodes {
      Trees.RetryDeletesExactly(t, turn);
    }
  }

  /** A retried turn goes with all that hangs below it. */
  lemma RetryDeletes(s: Stream, e: Event, now: Clock)
    requires Trees.Good(s.tree) && e.TurnRetried?
    ensures Acyclic(s.tree.nodes) && Discarded(s.tree, FoldStream(s, e, now).tree, e.turn)
  {
    GrownByStep(s, e, now, Trees.DiscardTurn(e.turn));
    RetryDiscards(s.tree, e.turn);
    hide FoldStream, Discarded, Trees.WellFormed, Trees.HeadKnown, Acyclic, Trees.RetryTurn;
  }
}
