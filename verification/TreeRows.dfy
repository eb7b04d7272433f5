/** The flattening of the session tree into rows (`session-tree.ts`, `rows`): depth first, the
    child that leads to the head before its siblings. */
module TreeRows {
  import opened Wrappers
  import opened Sequences
  import opened Forests
  import opened Trees

  datatype Gutter = Gutter(position: nat, show: bool)

  datatype Row = Row(
    id: Id,
    kind: EntryKind,
    preview: string,
    indent: nat,
    showConnector: bool,
    isLast: bool,
    gutters: seq<Gutter>,
    onActivePath: bool,
    isHead: bool)

  /** Where the walk stands when it reaches an entry. */
  datatype Slot = Slot(
    indent: nat,
    justBranched: bool,
    showConnector: bool,
    isLast: bool,
    gutters: seq<Gutter>,
    virtualRootChild: bool)

  /** The ids from the head up to its root; a head that names no entry is alone on the path. */
  ghost function ActivePath(t: Tree): set<Id>
    requires Acyclic(t.nodes)
  {
    match t.head
    case None => {}
    case Some(h) => if h in t.nodes then Elements(PathTo(t.nodes, h)) else {h}
  }

  /** A stable sort that puts the ids in `first` ahead of the others. */
  function SortFirst(ids: seq<Id>, first: set<Id>): seq<Id> {
    Keep(ids, first) + Drop(ids, first)
  }

  ghost function Ordered(t: Tree, id: Id): seq<Id>
    requires Acyclic(t.nodes) && id in t.nodes
  {
    SortFirst(t.nodes[id].children, ActivePath(t))
  }

  function RootSlot(multiple: bool, isLast: bool): Slot {
    Slot(if multiple then 1 else 0, multiple, multiple, isLast, [], multiple)
  }

  function ChildSlot(slot: Slot, multiple: bool, isLast: bool): Slot {
    Slot(if multiple || (slot.justBranched && slot.indent > 0) then slot.indent + 1 else slot.indent,
         multiple,
         multiple,
         isLast,
         if slot.showConnector && !slot.virtualRootChild
         then slot.gutters + [Gutter(if slot.indent > 0 then slot.indent - 1 else 0, !slot.isLast)]
         else slot.gutters,
         false)
  }

  ghost function RowAt(t: Tree, id: Id, slot: Slot): Row
    requires Acyclic(t.nodes) && id in t.nodes
  {
    Row(id, t.nodes[id].kind, t.nodes[id].preview, slot.indent, slot.showConnector, slot.isLast, slot.gutters,
        id in ActivePath(t), t.head == Some(id))
  }

  /** The rows of `id`'s subtree. */
  ghost function Walk(t: Tree, id: Id, slot: Slot): seq<Row>
    requires WellFormed(t) && id in t.nodes
    decreases Later(t.nodes, id), 1
  {
    assert LinkedAt(t.nodes, id);
    [RowAt(t, id, slot)] + WalkChildren(t, id, Ordered(t, id), slot)
  }

  ghost function WalkChildren(t: Tree, parent: Id, ids: seq<Id>, slot: Slot): seq<Row>
    requires WellFormed(t) && parent in t.nodes
    requires forall c :: c in ids ==> c in t.nodes && t.nodes[c].parent == Some(parent)
    decreases Later(t.nodes, parent), 0, |ids|
  {
    if ids == [] then []
    else
      ChildIsLater(t.nodes, parent, ids[0]);
      Walk(t, ids[0], ChildSlot(slot, |t.nodes[parent].children| > 1, |ids| == 1))
      + WalkChildren(t, parent, ids[1..], slot)
  }

  ghost function WalkRoots(t: Tree, ids: seq<Id>): seq<Row>
    requires WellFormed(t) && forall r :: r in ids ==> r in t.nodes
  {
    if ids == [] then []
    else Walk(t, ids[0], RootSlot(|t.roots| > 1, |ids| == 1)) + WalkRoots(t, ids[1..])
  }

  ghost function Rows(t: Tree): seq<Row>
    requires WellFormed(t)
  {
    WalkRoots(t, SortFirst(t.roots, ActivePath(t)))
  }

  /** Entries, roots and head are all the rows depend on. */
  ghost predicate SameForest(t: Tree, u: Tree) {
    t.nodes == u.nodes && t.roots == u.roots && t.head == u.head
  }

  lemma RowsDependOnForest(t: Tree, u: Tree)
    requires WellFormed(t) && WellFormed(u) && SameForest(t, u)
    ensures Rows(t) == Rows(u)
  {
    assert ActivePath(t) == ActivePath(u);
    hide ActivePath;
    SameRoots(t, u, SortFirst(t.roots, ActivePath(t)));
  }

  lemma {:induction false} SameRoots(t: Tree, u: Tree, ids: seq<Id>)
    requires WellFormed(t) && WellFormed(u) && SameForest(t, u) && forall r :: r in ids ==> r in t.nodes
    ensures WalkRoots(t, ids) == WalkRoots(u, ids)
  {
    if ids != [] {
      SameWalk(t, u, ids[0], RootSlot(|t.roots| > 1, |ids| == 1));
      SameRoots(t, u, ids[1..]);
    }
  }

  lemma {:induction false} SameWalk(t: Tree, u: Tree, id: Id, slot: Slot)
    requires WellFormed(t) && WellFormed(u) && SameForest(t, u) && id in t.nodes
    ensures Walk(t, id, slot) == Walk(u, id, slot)
    decreases Later(t.nodes, id), 1
  {
    assert ActivePath(t) == ActivePath(u);
    hide ActivePath;
    assert LinkedAt(t.nodes, id);
    SameChildren(t, u, id, Ordered(t, id), slot);
  }

  lemma {:induction false} SameChildren(t: Tree, u: Tree, parent: Id, ids: seq<Id>, slot: Slot)
    requires WellFormed(t) && WellFormed(u) && SameForest(t, u) && parent in t.nodes
    requires forall c :: c in ids ==> c in t.nodes && t.nodes[c].parent == Some(parent)
    ensures WalkChildren(t, parent, ids, slot) == WalkChildren(u, parent, ids, slot)
    decreases Later(t.nodes, parent), 0, |ids|
  {
    if ids != [] {
      ChildIsLater(t.nodes, parent, ids[0]);
      SameWalk(t, u, ids[0], ChildSlot(slot, |t.nodes[parent].children| > 1, |ids| == 1));
      SameChildren(t, u, parent, ids[1..], slot);
    }
  }

  // ---- the order of the ids

  function Ids(rows: seq<Row>): (ids: seq<Id>)
    ensures |ids| == |rows|
  {
    seq(|rows|, i requires 0 <= i < |rows| => rows[i].id)
  }

  ghost function Order(t: Tree, id: Id): (s: seq<Id>)
    requires WellFormed(t) && id in t.nodes
    ensures s != [] && s[0] == id
    decreases Later(t.nodes, id), 1
  {
    assert LinkedAt(t.nodes, id);
    [id] + OrderAll(t, id, Ordered(t, id))
  }

  ghost function OrderAll(t: Tree, parent: Id, ids: seq<Id>): seq<Id>
    requires WellFormed(t) && parent in t.nodes
    requires forall c :: c in ids ==> c in t.nodes && t.nodes[c].parent == Some(parent)
    decreases Later(t.nodes, parent), 0, |ids|
  {
    if ids == [] then []
    else
      ChildIsLater(t.nodes, parent, ids[0]);
      Order(t, ids[0]) + OrderAll(t, parent, ids[1..])
  }

  lemma IdsConcat(a: seq<Row>, b: seq<Row>)
    ensures Ids(a + b) == Ids(a) + Ids(b)
  {
  }

  lemma {:induction false} WalkOrder(t: Tree, id: Id, slot: Slot)
    requires WellFormed(t) && id in t.nodes
    ensures Ids(Walk(t, id, slot)) == Order(t, id)
    decreases Later(t.nodes, id), 1
  {
    WellFormedIsAcyclic(t);
    OrderedChildren(t, id);
    WalkChildrenOrder(t, id, Ordered(t, id), slot);
    IdsConcat([RowAt(t, id, slot)], WalkChildren(t, id, Ordered(t, id), slot));
  }

  lemma {:induction false} WalkChildrenOrder(t: Tree, parent: Id, ids: seq<Id>, slot: Slot)
    requires WellFormed(t) && parent in t.nodes
    requires forall c :: c in ids ==> c in t.nodes && t.nodes[c].parent == Some(parent)
    ensures Ids(WalkChildren(t, parent, ids, slot)) == OrderAll(t, parent, ids)
    decreases Later(t.nodes, parent), 0, |ids|
  {
    if ids != [] {
      var childSlot := ChildSlot(slot, |t.nodes[parent].children| > 1, |ids| == 1);
      ChildIsLater(t.nodes, parent, ids[0]);
      WalkOrder(t, ids[0], childSlot);
      WalkChildrenOrder(t, parent, ids[1..], slot);
      IdsConcat(Walk(t, ids[0], childSlot), WalkChildren(t, parent, ids[1..], slot));
    }
  }

  /** Children come out in a permutation of their arrival order. */
  lemma OrderedChildren(t: Tree, id: Id)
    requires WellFormed(t) && id in t.nodes
    ensures NoDup(Ordered(t, id))
    ensures Elements(Ordered(t, id)) == Elements(t.nodes[id].children)
    ensures forall c :: c in Ordered(t, id) ==> c in t.nodes && t.nodes[c].parent == Some(id)
  {
    assert LinkedAt(t.nodes, id);
    var children, path := t.nodes[id].children, ActivePath(t);
    KeepNoDup(children, path);
    DropNoDup(children, path);
    NoDupConcat(Keep(children, path), Drop(children, path));
  }

  /** A walk lists its subtree, all of it, once. */
  lemma {:induction false} OrderListsSubtree(t: Tree, id: Id)
    requires WellFormed(t) && id in t.nodes
    ensures NoDup(Order(t, id))
    ensures forall x :: x in Order(t, id) <==> x in Subtree(t.nodes, id)
    decreases Later(t.nodes, id), 1
  {
    OrderedChildren(t, id);
    var kids := Ordered(t, id);
    OrderAllListsSubtrees(t, id, kids);
    forall x
      ensures x in Order(t, id) <==> x in Subtree(t.nodes, id)
    {
      SubtreeUnfolds(t.nodes, t.roots, id, x);
    }
    forall x | x in OrderAll(t, id, kids)
      ensures x != id
    {
      var c :| c in kids && x in Subtree(t.nodes, c);
      ChildIsBelow(t.nodes, t.roots, id, c);
    }
    NoDupConcat([id], OrderAll(t, id, kids));
  }

  lemma {:induction false} OrderAllListsSubtrees(t: Tree, parent: Id, ids: seq<Id>)
    requires WellFormed(t) && parent in t.nodes && NoDup(ids)
    requires forall c :: c in ids ==> c in t.nodes && t.nodes[c].parent == Some(parent)
    ensures NoDup(OrderAll(t, parent, ids))
    ensures forall x :: x in OrderAll(t, parent, ids) <==> exists c :: c in ids && x in Subtree(t.nodes, c)
    decreases Later(t.nodes, parent), 0, |ids|
  {
    if ids != [] {
      ChildIsLater(t.nodes, parent, ids[0]);
      OrderListsSubtree(t, ids[0]);
      OrderAllListsSubtrees(t, parent, ids[1..]);
      forall x | x in Order(t, ids[0])
        ensures x !in OrderAll(t, parent, ids[1..])
      {
        forall c | c in ids[1..]
          ensures x !in Subtree(t.nodes, c)
        {
          assert LinkedAt(t.nodes, c) && LinkedAt(t.nodes, ids[0]);
          SiblingsApart(t.nodes, t.roots, parent, ids[0], c);
        }
      }
      NoDupConcat(Order(t, ids[0]), OrderAll(t, parent, ids[1..]));
      assert ids == [ids[0]] + ids[1..];
    }
  }

  // ---- parents before children

  /** Every entry of `s` hangs below `above` or below an earlier entry of `s`. */
  ghost predicate TopDown(nodes: Nodes, above: Option<Id>, s: seq<Id>) {
    forall i {:trigger ParentBefore(nodes, above, s, i)} :: 0 <= i < |s| ==> ParentBefore(nodes, above, s, i)
  }

  ghost predicate ParentBefore(nodes: Nodes, above: Option<Id>, s: seq<Id>, i: nat)
    requires i < |s|
  {
    s[i] in nodes && (nodes[s[i]].parent == above || exists j :: 0 <= j < i && nodes[s[i]].parent == Some(s[j]))
  }

  lemma TopDownConcat(nodes: Nodes, above: Option<Id>, a: seq<Id>, b: seq<Id>)
    requires TopDown(nodes, above, a) && TopDown(nodes, above, b)
    ensures TopDown(nodes, above, a + b)
  {
    forall i | 0 <= i < |a + b|
      ensures ParentBefore(nodes, above, a + b, i)
    {
      if i < |a| {
        assert ParentBefore(nodes, above, a, i);
        if nodes[a[i]].parent != above {
          var j :| 0 <= j < i && nodes[a[i]].parent == Some(a[j]);
          assert (a + b)[j] == a[j];
        }
      } else {
        assert ParentBefore(nodes, above, b, i - |a|);
        if nodes[b[i - |a|]].parent != above {
          var j :| 0 <= j < i - |a| && nodes[b[i - |a|]].parent == Some(b[j]);
          assert (a + b)[j + |a|] == b[j];
        }
      }
    }
  }

  lemma TopDownBelow(nodes: Nodes, id: Id, s: seq<Id>)
    requires id in nodes && TopDown(nodes, Some(id), s)
    ensures TopDown(nodes, nodes[id].parent, [id] + s)
  {
    forall i | 0 <= i < |[id] + s|
      ensures ParentBefore(nodes, nodes[id].parent, [id] + s, i)
    {
      if i > 0 {
        assert ParentBefore(nodes, Some(id), s, i - 1);
        if nodes[s[i - 1]].parent == Some(id) {
          assert ([id] + s)[0] == id;
        } else {
          var j :| 0 <= j < i - 1 && nodes[s[i - 1]].parent == Some(s[j]);
          assert ([id] + s)[j + 1] == s[j];
        }
      }
    }
  }

  lemma {:induction false} OrderIsTopDown(t: Tree, id: Id)
    requires WellFormed(t) && id in t.nodes
    ensures TopDown(t.nodes, t.nodes[id].parent, Order(t, id))
    decreases Later(t.nodes, id), 1
  {
    OrderedChildren(t, id);
    OrderAllIsTopDown(t, id, Ordered(t, id));
    TopDownBelow(t.nodes, id, OrderAll(t, id, Ordered(t, id)));
  }

  lemma {:induction false} OrderAllIsTopDown(t: Tree, parent: Id, ids: seq<Id>)
    requires WellFormed(t) && parent in t.nodes
    requires forall c :: c in ids ==> c in t.nodes && t.nodes[c].parent == Some(parent)
    ensures TopDown(t.nodes, Some(parent), OrderAll(t, parent, ids))
    decreases Later(t.nodes, parent), 0, |ids|
  {
    if ids != [] {
      ChildIsLater(t.nodes, parent, ids[0]);
      OrderIsTopDown(t, ids[0]);
      OrderAllIsTopDown(t, parent, ids[1..]);
      TopDownConcat(t.nodes, Some(parent), Order(t, ids[0]), OrderAll(t, parent, ids[1..]));
    }
  }

  // ---- the active path leads

  lemma {:induction false} KeepOnly(s: seq<Id>, xs: set<Id>, x: Id)
    requires NoDup(s) && x in s && x in xs
    requires forall y :: y in s && y in xs ==> y == x
    ensures Keep(s, xs) == [x]
  {
    if s[0] == x {
      assert forall y :: y in s[1..] ==> y !in xs;
      DropNone(s[1..], xs);
    } else {
      KeepOnly(s[1..], xs, x);
    }
  }

  /** At an entry on the active path above the head, the next entry of the path comes first. */
  lemma ActiveChildFirst(t: Tree, id: Id, child: Id)
    requires WellFormed(t) && HeadKnown(t) && t.head.Some? && id in t.nodes && child in t.nodes[id].children
    requires child in t.nodes && Below(t.nodes, t.head.value, child)
    ensures Ordered(t, id) == [child] + Drop(t.nodes[id].children, ActivePath(t))
  {
    assert LinkedAt(t.nodes, id);
    forall y | y in t.nodes[id].children && y in ActivePath(t)
      ensures y == child
    {
      SharedEntryMeansSameChild(t.nodes, t.roots, id, y, child, t.head.value);
    }
    KeepOnly(t.nodes[id].children, ActivePath(t), child);
  }

  /** A walk from an entry above the head starts by following the path down to the head. */
  lemma {:induction false} OrderFollowsPath(t: Tree, id: Id)
    requires WellFormed(t) && HeadKnown(t) && t.head.Some? && id in t.nodes
    requires Below(t.nodes, t.head.value, id)
    ensures |PathTo(t.nodes, id)| <= |PathTo(t.nodes, t.head.value)|
    ensures PathTo(t.nodes, t.head.value)[|PathTo(t.nodes, id)| - 1..] <= Order(t, id)
    decreases Later(t.nodes, id)
  {
    hide Ordered, Order, PathTo, Forest, Acyclic;
    WellFormedIsAcyclic(t);
    var h := t.head.value;
    var path := PathTo(t.nodes, h);
    PathPrefix(t.nodes, h, id);
    if id == h {
      assert path[|path| - 1..] == [id];
    } else {
      var child := BelowSomeChild(t.nodes, t.roots, h, id);
      ChildIsBelow(t.nodes, t.roots, id, child);
      ChildIsLater(t.nodes, id, child);
      ActiveChildFirst(t, id, child);
      OrderFollowsPath(t, child);
      FirstChildLeads(t, id, child);
      PathPrefix(t.nodes, h, child);
      SuffixPeels(path, PathTo(t.nodes, id), child);
    }
  }

  lemma FirstChildLeads(t: Tree, id: Id, child: Id)
    requires WellFormed(t) && id in t.nodes && Ordered(t, id) != [] && Ordered(t, id)[0] == child
    ensures child in t.nodes && [id] + Order(t, child) <= Order(t, id)
  {
    hide Ordered;
    OrderedChildren(t, id);
    var rest := OrderAll(t, id, Ordered(t, id)[1..]);
    assert Order(t, id) == [id] + (Order(t, child) + rest);
    assert Order(t, id) == [id] + Order(t, child) + rest;
  }

  /** Dropping one element less than a prefix keeps that prefix's last element in front. */
  lemma SuffixPeels(path: seq<Id>, upTo: seq<Id>, next: Id)
    requires upTo != [] && upTo + [next] <= path
    ensures path[|upTo| - 1..] == [upTo[|upTo| - 1]] + path[|upTo|..]
  {
    assert path[|upTo| - 1] == (upTo + [next])[|upTo| - 1];
  }

  // ---- the whole listing

  lemma RowsOfOneRoot(t: Tree)
    requires WellFormed(t)
    ensures t.nodes == map[] ==> Rows(t) == []
    ensures t.nodes != map[] ==> (
      && |t.roots| == 1 && t.roots[0] in t.nodes && t.nodes[t.roots[0]].parent == None
      && Rows(t) == Walk(t, t.roots[0], RootSlot(false, true)))
  {
    RootsAreEntries(t.nodes, t.roots);
    if t.nodes != map[] {
      var x :| x in t.nodes;
      BelowTheRoot(t.nodes, t.roots, x);
      var r := t.roots[0];
      assert t.roots == [r] && r in t.roots;
      var sorted := SortFirst(t.roots, ActivePath(t));
      assert sorted == [r] by {
        assert Keep([r][1..], ActivePath(t)) == [] && Drop([r][1..], ActivePath(t)) == [];
      }
      assert WalkRoots(t, sorted[1..]) == [];
    }
  }

  /** `rows` lists every entry exactly once, each parent before its children. */
  lemma RowsListEveryEntryOnce(t: Tree)
    requires WellFormed(t)
    ensures NoDup(Ids(Rows(t))) && Elements(Ids(Rows(t))) == t.nodes.Keys
    ensures TopDown(t.nodes, None, Ids(Rows(t)))
  {
    RowsOfOneRoot(t);
    if t.nodes != map[] {
      var r := t.roots[0];
      WalkOrder(t, r, RootSlot(false, true));
      OrderListsSubtree(t, r);
      OrderIsTopDown(t, r);
      forall x | x in t.nodes
        ensures x in Subtree(t.nodes, r)
      {
        BelowTheRoot(t.nodes, t.roots, x);
        assert PathTo(t.nodes, x)[0] == r;
      }
    }
  }

  /** The first rows are exactly the path from the root to the head. */
  lemma RowsStartWithActivePath(t: Tree)
    requires WellFormed(t) && HeadKnown(t) && t.head.Some?
    ensures PathTo(t.nodes, t.head.value) <= Ids(Rows(t))
  {
    RowsOfOneRoot(t);
    var r, h := t.roots[0], t.head.value;
    BelowTheRoot(t.nodes, t.roots, h);
    assert PathTo(t.nodes, h)[0] == r;
    WalkOrder(t, r, RootSlot(false, true));
    OrderFollowsPath(t, r);
    assert PathTo(t.nodes, r) == [r];
    assert PathTo(t.nodes, h)[0..] == PathTo(t.nodes, h);
  }

  // ---- what a row shows

  /** The entry has siblings: it starts a branch. */
  ghost predicate Branches(t: Tree, id: Id)
    requires Acyclic(t.nodes) && id in t.nodes
  {
    t.nodes[id].parent.Some? && |t.nodes[ParentOf(t.nodes, id)].children| > 1
  }

  /** Branch depth: one for every entry on the path that starts a branch, and one for every entry
      right below one that does. */
  ghost function BranchDepth(t: Tree, id: Id): nat
    requires Acyclic(t.nodes) && id in t.nodes
    decreases RankOf(t.nodes)[id]
  {
    if t.nodes[id].parent.None? then 0
    else
      var p := ParentOf(t.nodes, id);
      BranchDepth(t, p) + if Branches(t, id) || Branches(t, p) then 1 else 0
  }

  /** The entry is shown last among its siblings. */
  ghost predicate ClosesBranch(t: Tree, id: Id)
    requires Acyclic(t.nodes) && id in t.nodes
  {
    t.nodes[id].parent.Some? ==>
      var siblings := Ordered(t, ParentOf(t.nodes, id));
      siblings != [] && siblings[|siblings| - 1] == id
  }

  /** One column for every proper ancestor that starts a branch, drawn on while that ancestor still
      has siblings to come. */
  ghost function Gutters(t: Tree, id: Id): seq<Gutter>
    requires Acyclic(t.nodes) && id in t.nodes
    decreases RankOf(t.nodes)[id]
  {
    if t.nodes[id].parent.None? then []
    else
      var p := ParentOf(t.nodes, id);
      Gutters(t, p) +
      if Branches(t, p) && BranchDepth(t, p) > 0 then [Gutter(BranchDepth(t, p) - 1, !ClosesBranch(t, p))] else []
  }

  /** Everything a row shows, read off the tree. */
  ghost predicate Faithful(t: Tree, row: Row)
    requires Acyclic(t.nodes)
  {
    && row.id in t.nodes
    && row.kind == t.nodes[row.id].kind && row.preview == t.nodes[row.id].preview
    && (row.onActivePath <==> row.id in ActivePath(t))
    && (row.isHead <==> t.head == Some(row.id))
    && row.indent == BranchDepth(t, row.id)
    && (row.showConnector <==> Branches(t, row.id))
    && (row.isLast <==> ClosesBranch(t, row.id))
    && row.gutters == Gutters(t, row.id)
  }

  ghost predicate SlotFits(t: Tree, id: Id, slot: Slot)
    requires Acyclic(t.nodes) && id in t.nodes
  {
    && slot.justBranched == slot.showConnector == Branches(t, id)
    && slot.indent == BranchDepth(t, id)
    && slot.isLast == ClosesBranch(t, id)
    && slot.gutters == Gutters(t, id)
    && !slot.virtualRootChild
  }

  lemma BranchIsIndented(t: Tree, id: Id)
    requires Acyclic(t.nodes) && id in t.nodes && Branches(t, id)
    ensures BranchDepth(t, id) > 0
  {
  }

  lemma ChildSlotFits(t: Tree, parent: Id, child: Id, slot: Slot, isLast: bool)
    requires WellFormed(t) && parent in t.nodes && SlotFits(t, parent, slot)
    requires child in t.nodes && t.nodes[child].parent == Some(parent)
    requires isLast <==> Ordered(t, parent) != [] && Ordered(t, parent)[|Ordered(t, parent)| - 1] == child
    ensures SlotFits(t, child, ChildSlot(slot, |t.nodes[parent].children| > 1, isLast))
  {
    hide Ordered;
    assert ParentOf(t.nodes, child) == parent;
    if Branches(t, parent) {
      BranchIsIndented(t, parent);
    }
  }

  lemma {:induction false} WalkIsFaithful(t: Tree, id: Id, slot: Slot)
    requires WellFormed(t) && id in t.nodes && SlotFits(t, id, slot)
    ensures forall i :: 0 <= i < |Walk(t, id, slot)| ==> Faithful(t, Walk(t, id, slot)[i])
    decreases Later(t.nodes, id), 1
  {
    hide Ordered, ActivePath;
    OrderedChildren(t, id);
    assert [] + Ordered(t, id) == Ordered(t, id);
    WalkChildrenIsFaithful(t, id, [], Ordered(t, id), slot);
    assert Faithful(t, RowAt(t, id, slot));
  }

  lemma {:induction false} WalkChildrenIsFaithful(t: Tree, parent: Id, done: seq<Id>, ids: seq<Id>, slot: Slot)
    requires WellFormed(t) && parent in t.nodes && SlotFits(t, parent, slot)
    requires done + ids == Ordered(t, parent)
    requires forall c :: c in ids ==> c in t.nodes && t.nodes[c].parent == Some(parent)
    ensures forall i :: 0 <= i < |WalkChildren(t, parent, ids, slot)| ==>
      Faithful(t, WalkChildren(t, parent, ids, slot)[i])
    decreases Later(t.nodes, parent), 0, |ids|
  {
    hide Ordered, ActivePath, Faithful;
    if ids != [] {
      var all := Ordered(t, parent);
      OrderedChildren(t, parent);
      assert all[|done|] == ids[0];
      ChildIsLater(t.nodes, parent, ids[0]);
      ChildSlotFits(t, parent, ids[0], slot, |ids| == 1);
      WalkIsFaithful(t, ids[0], ChildSlot(slot, |t.nodes[parent].children| > 1, |ids| == 1));
      assert done + [ids[0]] + ids[1..] == all;
      WalkChildrenIsFaithful(t, parent, done + [ids[0]], ids[1..], slot);
    }
  }

  /** Every row tells the truth about its entry. The field's comment promises a connector on every
      row off the root level; the code draws one exactly where the parent branches. */
  lemma RowsAreFaithful(t: Tree)
    requires WellFormed(t)
    ensures forall i :: 0 <= i < |Rows(t)| ==> Faithful(t, Rows(t)[i])
  {
    RowsOfOneRoot(t);
    if t.nodes != map[] {
      WalkIsFaithful(t, t.roots[0], RootSlot(false, true));
    }
  }

  /** `a` branches into `b` and `c`, and `d` hangs alone below `b`. */
  const FORKED := Tree(
    map["a" := TreeNode(User, None, ["b", "c"], ""), "b" := TreeNode(Turn, Some("a"), ["d"], ""),
        "c" := TreeNode(Turn, Some("a"), [], ""), "d" := TreeNode(Tool, Some("b"), [], "")],
    ["a"], Some("d"), None, map[])

  lemma ForkedIsWellFormed()
    ensures WellFormed(FORKED)
  {
    ForkedIsLinked();
    hide Linked;
    assert "a"[0] == 'a' && "b"[0] == 'b' && "c"[0] == 'c' && "d"[0] == 'd';
    var rank: map<Id, nat> := map["a" := 0, "b" := 1, "c" := 1, "d" := 2];
    assert Ranked(FORKED.nodes, rank);
  }

  lemma ForkedIsLinked()
    ensures Linked(FORKED.nodes, FORKED.roots)
  {
    var nodes := FORKED.nodes;
    assert "a"[0] == 'a' && "b"[0] == 'b' && "c"[0] == 'c' && "d"[0] == 'd';
    forall id | id in nodes
      ensures LinkedAt(nodes, id) && (nodes[id].parent.None? <==> id == "a")
    {
      if id == "a" {
      } else if id == "b" {
      } else if id == "c" {
      }
    }
    hide LinkedAt;
  }

  lemma LeafIsIndented()
    requires WellFormed(FORKED)
    ensures "d" in FORKED.nodes && BranchDepth(FORKED, "d") > 0 && !Branches(FORKED, "d")
  {
    var nodes := FORKED.nodes;
    assert "a"[0] == 'a' && "b"[0] == 'b' && "c"[0] == 'c' && "d"[0] == 'd';
    assert "d" in nodes && nodes["d"].parent == Some("b") && "b" in nodes && nodes["b"].parent == Some("a");
    hide Linked, Ranked;
    assert Branches(FORKED, "b");
  }

  /** A connector is drawn exactly where the parent branches, while a row stands off the root level from
      the branch on: the row of `d` is indented and has none. */
  lemma ConnectorCanBeMissing()
    ensures WellFormed(FORKED)
    ensures exists i :: 0 <= i < |Rows(FORKED)| && Rows(FORKED)[i].indent > 0 && !Rows(FORKED)[i].showConnector
  {
    ForkedIsWellFormed();
    LeafIsIndented();
    RowsListEveryEntryOnce(FORKED);
    RowsAreFaithful(FORKED);
    hide Rows, BranchDepth, Branches, Gutters, ActivePath, ClosesBranch, Forest;
    assert "d" in Ids(Rows(FORKED));
    var i :| 0 <= i < |Rows(FORKED)| && Ids(Rows(FORKED))[i] == "d";
    assert Faithful(FORKED, Rows(FORKED)[i]);
  }

  /** A row's gutter columns never collide with each other, nor with the row's own connector. */
  lemma {:induction false} GuttersAreApart(t: Tree, id: Id)
    requires Acyclic(t.nodes) && id in t.nodes
    ensures forall i :: 0 <= i < |Gutters(t, id)| ==>
      Gutters(t, id)[i].position < BranchDepth(t, id) - if Branches(t, id) then 1 else 0
    ensures forall i, j :: 0 <= i < j < |Gutters(t, id)| ==> Gutters(t, id)[i].position < Gutters(t, id)[j].position
    decreases RankOf(t.nodes)[id]
  {
    if t.nodes[id].parent.Some? {
      GuttersAreApart(t, ParentOf(t.nodes, id));
    }
  }

  // ---- subtrees stay together

  /** Rows `k` up to `k + n` of `s` are the walk of `x`'s subtree. */
  ghost predicate BlockAt(t: Tree, s: seq<Id>, x: Id, k: nat)
    requires WellFormed(t) && x in t.nodes
  {
    k + |Order(t, x)| <= |s| && s[k..k + |Order(t, x)|] == Order(t, x)
  }

  lemma BlockInside(t: Tree, a: seq<Id>, s: seq<Id>, b: seq<Id>, x: Id, k: nat)
    requires WellFormed(t) && x in t.nodes && BlockAt(t, s, x, k)
    ensures BlockAt(t, a + s + b, x, |a| + k)
  {
    var n := |Order(t, x)|;
    assert (a + s + b)[|a| + k..|a| + k + n] == s[k..k + n];
  }

  /** The listing never leaves a subtree before it is finished. */
  lemma {:induction false} SubtreeIsABlock(t: Tree, id: Id, x: Id) returns (k: nat)
    requires WellFormed(t) && id in t.nodes && x in Subtree(t.nodes, id)
    ensures BlockAt(t, Order(t, id), x, k)
    decreases Later(t.nodes, id), 1
  {
    hide Ordered, Forest;
    if x == id {
      k := 0;
      assert Order(t, id)[0..|Order(t, id)|] == Order(t, id);
    } else {
      OrderedChildren(t, id);
      var c := BelowSomeChild(t.nodes, t.roots, x, id);
      var j := SubtreeIsABlockAmong(t, id, Ordered(t, id), x, c);
      var all := OrderAll(t, id, Ordered(t, id));
      assert [id] + all + [] == Order(t, id);
      hide BlockAt;
      BlockInside(t, [id], all, [], x, j);
      k := 1 + j;
    }
  }

  lemma OrderAllUnfolds(t: Tree, parent: Id, ids: seq<Id>)
    requires WellFormed(t) && parent in t.nodes && ids != []
    requires forall d :: d in ids ==> d in t.nodes && t.nodes[d].parent == Some(parent)
    ensures OrderAll(t, parent, ids) == Order(t, ids[0]) + OrderAll(t, parent, ids[1..])
  {
  }

  lemma {:induction false} SubtreeIsABlockAmong(t: Tree, parent: Id, ids: seq<Id>, x: Id, c: Id) returns (k: nat)
    requires WellFormed(t) && parent in t.nodes && c in ids && c in t.nodes && x in t.nodes
    requires x in Subtree(t.nodes, c)
    requires forall d :: d in ids ==> d in t.nodes && t.nodes[d].parent == Some(parent)
    ensures BlockAt(t, OrderAll(t, parent, ids), x, k)
    decreases Later(t.nodes, parent), 0, |ids|
  {
    hide Forest, Subtree, BlockAt, Order, OrderAll;
    WellFormedIsAcyclic(t);
    ChildIsLater(t.nodes, parent, ids[0]);
    var first, rest := Order(t, ids[0]), OrderAll(t, parent, ids[1..]);
    OrderAllUnfolds(t, parent, ids);
    assert [] + first + rest == first + rest && first + rest + [] == first + rest;
    if ids[0] == c {
      k := SubtreeIsABlock(t, c, x);
      BlockInside(t, [], first, rest, x, k);
    } else {
      var j := SubtreeIsABlockAmong(t, parent, ids[1..], x, c);
      BlockInside(t, first, rest, [], x, j);
      k := |first| + j;
    }
  }
}
