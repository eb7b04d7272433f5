/** The session tree itself (`session-tree.ts`, class `SessionTree`): the operations change its
    fields in place, and each is proved to compute the function of `Trees.dfy` or `TreeRows.dfy`
    that says what it means. */
module SessionTrees {
  import opened Wrappers
  import opened Sequences
  import opened Previews
  import opened Forests
  import opened Trees
  import opened TreeRows

  class SessionTree {
    var nodes: Nodes
    var roots: seq<Id>
    var head: Option<Id>
    var openTurn: Option<Id>
    var calls: map<CallId, ToolCall>

    function View(): Tree
      reads this
    {
      Tree(nodes, roots, head, openTurn, calls)
    }

    constructor ()
      ensures View() == Empty
    {
      nodes, roots, head, openTurn, calls := map[], [], None, None, map[];
    }

    constructor Holding(t: Tree)
      ensures View() == t
    {
      nodes, roots, head, openTurn, calls := t.nodes, t.roots, t.head, t.openTurn, t.calls;
    }

    method Clear()
      modifies this
      ensures View() == Empty
    {
      nodes, roots, head, openTurn, calls := map[], [], None, None, map[];
    }

    /** Throwing happens exactly when the function says so, and otherwise the state is its result. */
    ghost predicate Outcome(threw: bool, expected: Result<Tree, Fault>)
      reads this
    {
      if threw then expected.Err? else expected == Ok(View())
    }

    method EnterEntry(id: Id, kind: EntryKind, preview: string) returns (threw: bool)
      modifies this`nodes, this`roots, this`head
      ensures Outcome(threw, Enter(old(View()), id, kind, preview))
      ensures View() == Entering(old(View()), id, kind, preview)
    {
      threw := false;
      if id in nodes {
        head := Some(id);
        return;
      }
      nodes := nodes[id := TreeNode(kind, head, [], preview)];
      if head.None? {
        roots := roots + [id];
      } else if head.value !in nodes {
        return true; // the entry stays behind, below a parent that is not there
      } else {
        var parent := nodes[head.value];
        nodes := nodes[head.value := parent.(children := parent.children + [id])];
      }
      head := Some(id);
    }

    method AddUser(id: Id, text: string) returns (threw: bool)
      modifies this
      ensures Outcome(threw, Enter(old(View()), id, User, SingleLine(text)))
      ensures View() == Leaves(old(View()), Step.AddUser(id, text))
      ensures threw <==> Throws(old(View()), Step.AddUser(id, text))
    {
      threw := EnterEntry(id, User, SingleLine(text));
    }

    method OpenTurn(id: Id) returns (threw: bool)
      modifies this
      ensures Outcome(threw, Trees.OpenTurn(old(View()), id))
      ensures View() == Leaves(old(View()), StartTurn(id))
      ensures threw <==> Throws(old(View()), StartTurn(id))
    {
      var known := id in nodes;
      threw := EnterEntry(id, Turn, "");
      if !threw && !known {
        openTurn := Some(id);
      }
    }

    method AppendTurnText(id: Id, text: string)
      modifies this`nodes
      ensures View() == Trees.AppendTurnText(old(View()), id, text)
    {
      if openTurn != Some(id) || id !in nodes {
        return;
      }
      var node := nodes[id];
      nodes := nodes[id := node.(preview := AppendPreview(node.preview, text))];
    }

    method NoteToolCall(call: CallId, announced: ToolCall)
      modifies this`calls
      ensures View() == old(View()).(calls := old(calls)[call := announced])
    {
      calls := calls[call := announced];
    }

    method AddTool(id: Id, call: CallId, name: string) returns (threw: bool)
      modifies this
      ensures Outcome(threw, Trees.AddTool(old(View()), id, call, name))
      ensures View() == Leaves(old(View()), ToolResult(id, call, name))
      ensures threw <==> Throws(old(View()), ToolResult(id, call, name))
    {
      var announced := if call in calls then Some(calls[call]) else None;
      calls := calls - {call};
      threw := EnterEntry(id, Tool, ToolLabel(announced, name));
    }

    method AddCompaction(id: Id, totalTokens: nat) returns (threw: bool)
      modifies this
      ensures Outcome(threw, Enter(old(View()), id, Compaction, CompactionLabel(totalTokens)))
      ensures View() == Leaves(old(View()), Step.AddCompaction(id, totalTokens))
      ensures threw <==> Throws(old(View()), Step.AddCompaction(id, totalTokens))
    {
      threw := EnterEntry(id, Compaction, CompactionLabel(totalTokens));
    }

    method CloseTurn()
      modifies this`openTurn
      ensures View() == old(View()).(openTurn := None)
    {
      openTurn := None;
    }

    method Checkout(id: Id)
      modifies this`openTurn, this`head
      ensures View() == Trees.Checkout(old(View()), id)
    {
      openTurn := None;
      head := Some(id);
    }

    // ---- retry

    /** Deleting entry by entry, children first, deletes exactly the subtree. `all` is the forest
        before the first deletion, `gone` what other branches have lost so far. */
    method DropSubtree(id: Id, ghost all: Nodes, ghost tops: seq<Id>, ghost gone: set<Id>)
      requires Forest(all, tops) && nodes == all - gone
      requires id in nodes ==> gone !! Subtree(all, id)
      modifies this`nodes
      ensures nodes == if id in old(nodes) then all - (gone + Subtree(all, id)) else old(nodes)
      decreases if id in all then Later(all, id) else {}, 1
    {
      if id !in nodes {
        return;
      }
      var children := nodes[id].children;
      DropAll(id, children, all, tops, gone);
      nodes := nodes - {id};
      SubtreeIsTopAndSubtrees(all, tops, id);
    }

    /** The loop over the children: each loses its own subtree, which no earlier one shared. */
    method DropAll(id: Id, children: seq<Id>, ghost all: Nodes, ghost tops: seq<Id>, ghost gone: set<Id>)
      requires Forest(all, tops) && nodes == all - gone
      requires id in all && children == all[id].children && gone !! Subtree(all, id)
      modifies this`nodes
      ensures nodes == all - (gone + Subtrees(all, children))
      decreases Later(all, id), 0
    {
      hide Subtree, Subtrees, Later;
      NoSubtrees(all);
      for i := 0 to |children|
        invariant nodes == all - (gone + Subtrees(all, children[..i]))
      {
        var child := children[i];
        ChildIsBelow(all, tops, id, child);
        ChildIsLater(all, id, child);
        EarlierSubtreesApart(all, tops, id, i);
        SubtreesGrow(all, children, i);
        ghost var lost := gone + Subtrees(all, children[..i]);
        DropSubtree(child, all, tops, lost);
        assert gone + Subtrees(all, children[..i + 1]) == lost + Subtree(all, child);
      }
      assert children[..|children|] == children;
    }

    lemma NoSubtrees(all: Nodes)
      requires Acyclic(all)
      ensures Subtrees(all, []) == {}
    {
    }

    /** A turn that is retried takes its subtree with it, and nothing else. */
    method RetryTurn(id: Id)
      requires WellFormed(View())
      modifies this
      ensures View() == Trees.RetryTurn(old(View()), id)
    {
      if openTurn == Some(id) {
        openTurn := None;
      }
      if id !in nodes {
        return;
      }
      hide Subtree, Forest, Unlisted;
      var node := nodes[id];
      ghost var before := old(View());
      DropSubtree(id, nodes, roots, {});
      assert {} + Subtree(before.nodes, id) == Subtree(before.nodes, id);
      Unlist(id, node, before);
      if head.Some? && head.value !in nodes {
        head := node.parent;
      }
      Retried(before, id, View());
    }

    /** The dropped top leaves its parent's list, or the roots. */
    method Unlist(id: Id, node: TreeNode, ghost before: Tree)
      requires WellFormed(before) && id in before.nodes && node == before.nodes[id]
      requires nodes == before.nodes - Subtree(before.nodes, id) && roots == before.roots
      modifies this`nodes, this`roots
      ensures nodes == Unlisted(before.nodes - Subtree(before.nodes, id), id) && roots == Drop(before.roots, {id})
    {
      UnlistTop(before, id);
      hide Subtree, Forest, Unlisted;
      if node.parent.Some? {
        var p := node.parent.value;
        if p in nodes {
          nodes := nodes[p := nodes[p].(children := Drop(nodes[p].children, {id}))];
        }
      } else {
        var i := IndexOf(roots, id);
        if i < |roots| {
          CutOneOut(roots, i);
          roots := roots[..i] + roots[i + 1..];
        }
      }
    }

    lemma Retried(before: Tree, id: Id, after: Tree)
      requires WellFormed(before) && id in before.nodes && after.calls == before.calls
      requires after.nodes == Unlisted(before.nodes - Subtree(before.nodes, id), id)
      requires after.roots == Drop(before.roots, {id})
      requires after.openTurn == if before.openTurn == Some(id) then None else before.openTurn
      requires after.head == if before.head.Some? && before.head.value !in after.nodes then before.nodes[id].parent
                             else before.head
      ensures after == Trees.RetryTurn(before, id)
    {
      hide Subtree, Unlisted, Forest;
      assert Acyclic(before.nodes) by {
        WellFormedIsAcyclic(before);
      }
    }

    /** Unlisting a dropped top where its parent, or the roots, name it unlists it everywhere. */
    lemma UnlistTop(t: Tree, id: Id)
      requires WellFormed(t) && id in t.nodes
      ensures var left := t.nodes - Subtree(t.nodes, id);
        match t.nodes[id].parent
        case None => id in t.roots && Unlisted(left, id) == left
        case Some(p) =>
          && p in left && Drop(t.roots, {id}) == t.roots
          && Unlisted(left, id) == left[p := left[p].(children := Drop(left[p].children, {id}))]
    {
      var left := t.nodes - Subtree(t.nodes, id);
      assert LinkedAt(t.nodes, id);
      forall x | x in left && t.nodes[id].parent != Some(x)
        ensures Drop(left[x].children, {id}) == left[x].children
      {
        assert LinkedAt(t.nodes, x);
        DropNone(left[x].children, {id});
      }
      if t.nodes[id].parent.Some? {
        var p := ParentOf(t.nodes, id);
        assert p in left;
        DropNone(t.roots, {id});
        UnlistedAt(left, p, id);
      } else {
        assert Unlisted(left, id) == left;
      }
    }

    lemma UnlistedAt(left: Nodes, p: Id, id: Id)
      requires p in left && forall x :: x in left && x != p ==> Drop(left[x].children, {id}) == left[x].children
      ensures Unlisted(left, id) == left[p := left[p].(children := Drop(left[p].children, {id}))]
    {
    }

    // ---- rows

    method ActiveIds() returns (path: set<Id>)
      requires WellFormed(View())
      ensures path == ActivePath(View())
    {
      path := {};
      var cursor := head;
      while cursor.Some?
        invariant path + ActivePath(View().(head := cursor)) == ActivePath(View())
        decreases if cursor.None? then 0 else if cursor.value in nodes then RankOf(nodes)[cursor.value] + 2 else 1
      {
        var id := cursor.value;
        path := path + {id};
        cursor := if id in nodes then nodes[id].parent else None;
        if id in nodes && cursor.Some? {
          assert ParentOf(nodes, id) == cursor.value;
          assert PathTo(nodes, id) == PathTo(nodes, cursor.value) + [id];
        }
      }
    }

    /** Searching a whole subtree for the active path finds it exactly when the top is on it. */
    method Contains(id: Id, path: set<Id>) returns (found: bool)
      requires WellFormed(View()) && path == ActivePath(View()) && id in nodes
      ensures found <==> id in path
      decreases Later(nodes, id)
    {
      if id in path {
        return true;
      }
      var children := nodes[id].children;
      assert LinkedAt(nodes, id);
      for i := 0 to |children|
        invariant forall j :: 0 <= j < i ==> children[j] !in path
      {
        ChildIsLater(nodes, id, children[i]);
        var below := Contains(children[i], path);
        if below {
          ActivePathIsClosed(View(), children[i]);
          return true;
        }
      }
      return false;
    }

    lemma ActivePathIsClosed(t: Tree, child: Id)
      requires WellFormed(t) && child in t.nodes && child in ActivePath(t) && t.nodes[child].parent.Some?
      ensures t.nodes[child].parent.value in ActivePath(t)
    {
      var h := t.head.value;
      var p := ParentOf(t.nodes, child);
      PathPrefix(t.nodes, h, child);
      assert PathTo(t.nodes, child) == PathTo(t.nodes, p) + [child];
      assert p in PathTo(t.nodes, child);
    }

    method ActiveFirst(ids: seq<Id>, path: set<Id>) returns (sorted: seq<Id>)
      requires WellFormed(View()) && path == ActivePath(View()) && forall id :: id in ids ==> id in nodes
      ensures sorted == SortFirst(ids, path)
    {
      if |ids| < 2 {
        assert |ids| == 1 ==> ids == [ids[0]] && Keep(ids[1..], path) == [] && Drop(ids[1..], path) == [];
        return ids;
      }
      var leading: set<Id> := {};
      for i := 0 to |ids|
        invariant forall x :: x in leading <==> x in ids[..i] && x in path
      {
        var found := Contains(ids[i], path);
        if found {
          leading := leading + {ids[i]};
        }
      }
      assert ids[..|ids|] == ids;
      SameMembersSplitAlike(ids, leading, path);
      sorted := SortFirst(ids, leading);
    }

    method WalkInto(id: Id, slot: Slot, path: set<Id>, rows: seq<Row>) returns (more: seq<Row>)
      requires WellFormed(View()) && path == ActivePath(View()) && id in nodes
      ensures more == rows + Walk(View(), id, slot)
      decreases Later(nodes, id), 1
    {
      hide SortFirst, ActivePath;
      ghost var t := View();
      var node := nodes[id];
      var row := Row(id, node.kind, node.preview, slot.indent, slot.showConnector, slot.isLast, slot.gutters,
                     id in path, head == Some(id));
      OrderedChildren(t, id);
      assert LinkedAt(nodes, id);
      var multiple := |node.children| > 1;
      var ordered := ActiveFirst(node.children, path);
      more := WalkList(id, ordered, slot, multiple, path, rows + [row]);
      ghost var below := WalkChildren(t, id, ordered, slot);
      assert rows + [row] + below == rows + ([row] + below);
    }

    method WalkList(id: Id, ordered: seq<Id>, slot: Slot, multiple: bool, path: set<Id>, rows: seq<Row>)
      returns (more: seq<Row>)
      requires WellFormed(View()) && path == ActivePath(View()) && id in nodes
      requires multiple == (|nodes[id].children| > 1)
      requires forall c :: c in ordered ==> c in nodes && nodes[c].parent == Some(id)
      ensures more == rows + WalkChildren(View(), id, ordered, slot)
      decreases Later(nodes, id), 0
    {
      ghost var t := View();
      more := rows;
      assert ordered[0..] == ordered;
      for i := 0 to |ordered|
        invariant more + WalkChildren(t, id, ordered[i..], slot) == rows + WalkChildren(t, id, ordered, slot)
      {
        ChildIsLater(nodes, id, ordered[i]);
        assert ordered[i..][1..] == ordered[i + 1..];
        ghost var next := Walk(t, ordered[i], ChildSlot(slot, multiple, i == |ordered| - 1));
        ghost var rest := WalkChildren(t, id, ordered[i + 1..], slot);
        assert more + (next + rest) == more + next + rest;
        more := WalkInto(ordered[i], ChildSlot(slot, multiple, i == |ordered| - 1), path, more);
      }
    }

    /** The flattening pushes exactly the rows `TreeRows.Rows` lists. */
    method Flattened() returns (rows: seq<Row>)
      requires WellFormed(View())
      ensures rows == Rows(View())
    {
      ghost var t := View();
      var path := ActiveIds();
      var ordered := ActiveFirst(roots, path);
      var multiple := |roots| > 1;
      rows := [];
      RowsAreWalked(t, ordered);
      hide Walk, WalkRoots, Rows, ActivePath, Forest;
      for i := 0 to |ordered|
        invariant forall r :: r in ordered ==> r in nodes
        invariant rows + WalkRoots(t, ordered[i..]) == Rows(t)
      {
        RootsNext(t, ordered, i, rows);
        rows := WalkInto(ordered[i], RootSlot(multiple, i == |ordered| - 1), path, rows);
      }
      RootsDone(t, ordered);
    }

    lemma RowsAreWalked(t: Tree, ordered: seq<Id>)
      requires WellFormed(t) && ordered == SortFirst(t.roots, ActivePath(t))
      ensures (forall r :: r in ordered ==> r in t.nodes) && [] + WalkRoots(t, ordered[0..]) == Rows(t)
    {
      hide ActivePath, Walk;
      assert ordered[0..] == ordered;
    }

    lemma RootsNext(t: Tree, ordered: seq<Id>, i: nat, rows: seq<Row>)
      requires WellFormed(t) && i < |ordered| && forall r :: r in ordered ==> r in t.nodes
      ensures rows + WalkRoots(t, ordered[i..]) ==
        rows + Walk(t, ordered[i], RootSlot(|t.roots| > 1, i == |ordered| - 1)) + WalkRoots(t, ordered[i + 1..])
    {
      hide Walk, Forest;
      assert ordered[i..][1..] == ordered[i + 1..];
    }

    lemma RootsDone(t: Tree, ordered: seq<Id>)
      requires WellFormed(t)
      ensures forall rows: seq<Row> :: rows + WalkRoots(t, ordered[|ordered|..]) == rows
    {
    }
  }

  method IndexOf(ids: seq<Id>, id: Id) returns (i: nat)
    ensures i <= |ids| && id !in ids[..i]
    ensures i < |ids| ==> ids[i] == id
  {
    i := 0;
    while i < |ids| && ids[i] != id
      invariant i <= |ids| && id !in ids[..i]
    {
      i := i + 1;
    }
  }
}
