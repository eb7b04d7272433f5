/** The node forest under the session tree: agreement of parent and child links, acyclicity, the
    path from a root to an entry, and the entries below one. */
module Forests {
  import opened Wrappers
  import opened Sequences

  type Id = string

  datatype EntryKind = User | Turn | Tool | Compaction

  datatype TreeNode = TreeNode(kind: EntryKind, parent: Option<Id>, children: seq<Id>, preview: string)

  type Nodes = map<Id, TreeNode>

  /** Parents and child lists tell the same story, without repeats. */
  ghost predicate Linked(nodes: Nodes, roots: seq<Id>) {
    && NoDup(roots)
    && (forall id :: id in roots <==> id in nodes && nodes[id].parent.None?)
    && (forall id {:trigger LinkedAt(nodes, id)} :: id in nodes ==> LinkedAt(nodes, id))
  }

  ghost predicate LinkedAt(nodes: Nodes, id: Id)
    requires id in nodes
  {
    && NoDup(nodes[id].children)
    && (forall c :: c in nodes[id].children ==> c in nodes && nodes[c].parent == Some(id))
    && (nodes[id].parent.Some? ==>
          nodes[id].parent.value in nodes && id in nodes[nodes[id].parent.value].children)
  }

  /** `rank` numbers the entries so that a parent always comes before its children: the order of
      arrival does. */
  ghost predicate Ranked(nodes: Nodes, rank: map<Id, nat>) {
    && rank.Keys == nodes.Keys
    && (forall id {:trigger RankedAt(nodes, rank, id)} :: id in nodes ==> RankedAt(nodes, rank, id))
  }

  ghost predicate RankedAt(nodes: Nodes, rank: map<Id, nat>, id: Id)
    requires rank.Keys == nodes.Keys && id in nodes
  {
    nodes[id].parent.Some? ==>
      nodes[id].parent.value in nodes && rank[nodes[id].parent.value] < rank[id]
  }

  ghost predicate Acyclic(nodes: Nodes) {
    exists rank :: Ranked(nodes, rank)
  }

  ghost predicate Forest(nodes: Nodes, roots: seq<Id>) {
    Linked(nodes, roots) && Acyclic(nodes)
  }

  ghost function RankOf(nodes: Nodes): (rank: map<Id, nat>)
    requires Acyclic(nodes)
    ensures Ranked(nodes, rank)
  {
    var rank :| Ranked(nodes, rank); rank
  }

  ghost function ParentOf(nodes: Nodes, id: Id): (p: Id)
    requires Acyclic(nodes) && id in nodes && nodes[id].parent.Some?
    ensures nodes[id].parent == Some(p) && p in nodes && RankOf(nodes)[p] < RankOf(nodes)[id]
  {
    assert RankedAt(nodes, RankOf(nodes), id);
    nodes[id].parent.value
  }

  /** The entries numbered after `id`: a walk down the tree always shrinks this set. */
  ghost function Later(nodes: Nodes, id: Id): set<Id>
    requires Acyclic(nodes) && id in nodes
  {
    set x | x in nodes && RankOf(nodes)[x] > RankOf(nodes)[id]
  }

  lemma ChildIsLater(nodes: Nodes, id: Id, child: Id)
    requires Acyclic(nodes) && id in nodes && child in nodes && nodes[child].parent == Some(id)
    ensures Later(nodes, child) < Later(nodes, id)
  {
    assert ParentOf(nodes, child) == id;
    assert child in Later(nodes, id) && child !in Later(nodes, child);
  }

  /** The chain from the root down to `id`, `id` last. */
  ghost function PathTo(nodes: Nodes, id: Id): (path: seq<Id>)
    requires Acyclic(nodes) && id in nodes
    ensures path != [] && path[|path| - 1] == id
    ensures forall x :: x in path ==> x in nodes && RankOf(nodes)[x] <= RankOf(nodes)[id]
    decreases RankOf(nodes)[id]
  {
    if nodes[id].parent.None? then [id] else PathTo(nodes, ParentOf(nodes, id)) + [id]
  }

  /** `x` is `id` or hangs somewhere below it. */
  ghost predicate Below(nodes: Nodes, x: Id, id: Id)
    requires Acyclic(nodes) && x in nodes
  {
    id in PathTo(nodes, x)
  }

  ghost function Subtree(nodes: Nodes, id: Id): set<Id>
    requires Acyclic(nodes)
  {
    set x | x in nodes && Below(nodes, x, id)
  }

  /** Paths only look at parents: two node maps that agree on the parents of `a` share its paths. */
  lemma {:induction false} PathAgree(a: Nodes, b: Nodes, id: Id)
    requires Acyclic(a) && Acyclic(b) && id in a
    requires forall x :: x in a ==> x in b && b[x].parent == a[x].parent
    ensures PathTo(a, id) == PathTo(b, id)
    decreases RankOf(a)[id]
  {
    if a[id].parent.Some? {
      PathAgree(a, b, ParentOf(a, id));
    }
  }

  lemma {:induction false} PathPrefix(nodes: Nodes, x: Id, id: Id)
    requires Acyclic(nodes) && x in nodes && Below(nodes, x, id)
    ensures id in nodes && PathTo(nodes, id) <= PathTo(nodes, x)
    decreases RankOf(nodes)[x]
  {
    if x != id {
      PathPrefix(nodes, ParentOf(nodes, x), id);
    }
  }

  lemma BelowTransitive(nodes: Nodes, x: Id, y: Id, z: Id)
    requires Acyclic(nodes) && x in nodes && y in nodes
    requires Below(nodes, x, y) && Below(nodes, y, z)
    ensures Below(nodes, x, z)
  {
    PathPrefix(nodes, x, y);
  }

  /** No entry repeats on a path: the links have no cycle. */
  lemma {:induction false} PathNoDup(nodes: Nodes, id: Id)
    requires Acyclic(nodes) && id in nodes
    ensures NoDup(PathTo(nodes, id))
    decreases RankOf(nodes)[id]
  {
    if nodes[id].parent.Some? {
      var p := ParentOf(nodes, id);
      PathNoDup(nodes, p);
      assert id !in PathTo(nodes, p);
    }
  }

  /** On a path each entry is the parent of the next, and the first is a root. */
  lemma {:induction false} PathSteps(nodes: Nodes, id: Id)
    requires Acyclic(nodes) && id in nodes
    ensures nodes[PathTo(nodes, id)[0]].parent == None
    ensures forall i :: 0 < i < |PathTo(nodes, id)| ==>
      nodes[PathTo(nodes, id)[i]].parent == Some(PathTo(nodes, id)[i - 1])
    decreases RankOf(nodes)[id]
  {
    if nodes[id].parent.Some? {
      PathSteps(nodes, ParentOf(nodes, id));
    }
  }

  /** Everything strictly below `id` is below exactly one of its children. */
  lemma {:induction false} BelowSomeChild(nodes: Nodes, roots: seq<Id>, x: Id, id: Id) returns (child: Id)
    requires Forest(nodes, roots) && x in nodes && x != id && Below(nodes, x, id)
    ensures id in nodes && child in nodes[id].children && child in nodes && Below(nodes, x, child)
    decreases RankOf(nodes)[x]
  {
    var p := ParentOf(nodes, x);
    assert LinkedAt(nodes, x);
    if p == id {
      child := x;
    } else {
      child := BelowSomeChild(nodes, roots, p, id);
    }
  }

  lemma ChildIsBelow(nodes: Nodes, roots: seq<Id>, id: Id, child: Id)
    requires Forest(nodes, roots) && id in nodes && child in nodes[id].children
    ensures child in nodes && nodes[child].parent == Some(id)
    ensures PathTo(nodes, child) == PathTo(nodes, id) + [child]
    ensures id !in Subtree(nodes, child)
  {
    assert LinkedAt(nodes, id);
    assert ParentOf(nodes, child) == id;
  }

  lemma SharedEntryMeansSameChild(nodes: Nodes, roots: seq<Id>, id: Id, c: Id, d: Id, x: Id)
    requires Forest(nodes, roots) && id in nodes && c in nodes[id].children && d in nodes[id].children
    requires x in Subtree(nodes, c) && x in Subtree(nodes, d)
    ensures c == d
  {
    ChildIsBelow(nodes, roots, id, c);
    ChildIsBelow(nodes, roots, id, d);
    PathPrefix(nodes, x, c);
    PathPrefix(nodes, x, d);
    assert PathTo(nodes, c)[|PathTo(nodes, id)|] == c;
    assert PathTo(nodes, d)[|PathTo(nodes, id)|] == d;
  }

  lemma SiblingsApart(nodes: Nodes, roots: seq<Id>, id: Id, c: Id, d: Id)
    requires Forest(nodes, roots) && id in nodes && c in nodes[id].children && d in nodes[id].children && c != d
    ensures Subtree(nodes, c) !! Subtree(nodes, d)
  {
    forall x | x in Subtree(nodes, c)
      ensures x !in Subtree(nodes, d)
    {
      if x in Subtree(nodes, d) {
        SharedEntryMeansSameChild(nodes, roots, id, c, d, x);
      }
    }
  }

  /** A subtree is its top entry plus the subtrees of the children. */
  lemma SubtreeUnfolds(nodes: Nodes, roots: seq<Id>, id: Id, x: Id)
    requires Forest(nodes, roots) && id in nodes
    ensures x in Subtree(nodes, id) <==>
      x == id || exists c :: c in nodes[id].children && x in Subtree(nodes, c)
  {
    if x in Subtree(nodes, id) && x != id {
      var c := BelowSomeChild(nodes, roots, x, id);
      assert x in Subtree(nodes, c);
    }
    if c :| c in nodes[id].children && x in Subtree(nodes, c) {
      ChildIsBelow(nodes, roots, id, c);
      BelowTransitive(nodes, x, c, id);
    }
  }

  /** The subtrees of several entries together. */
  ghost function Subtrees(nodes: Nodes, ids: seq<Id>): set<Id>
    requires Acyclic(nodes)
  {
    set x | x in nodes && BelowAny(nodes, x, ids)
  }

  ghost predicate BelowAny(nodes: Nodes, x: Id, ids: seq<Id>)
    requires Acyclic(nodes) && x in nodes
  {
    exists i :: 0 <= i < |ids| && Below(nodes, x, ids[i])
  }

  lemma SubtreesGrow(nodes: Nodes, ids: seq<Id>, i: nat)
    requires Acyclic(nodes) && i < |ids|
    ensures Subtrees(nodes, ids[..i + 1]) == Subtrees(nodes, ids[..i]) + Subtree(nodes, ids[i])
  {
    forall x | x in nodes
      ensures BelowAny(nodes, x, ids[..i + 1]) <==> BelowAny(nodes, x, ids[..i]) || Below(nodes, x, ids[i])
    {
      if BelowAny(nodes, x, ids[..i]) {
        var j :| 0 <= j < i && Below(nodes, x, ids[..i][j]);
        assert ids[..i + 1][j] == ids[..i][j];
      }
      if Below(nodes, x, ids[i]) {
        assert ids[..i + 1][i] == ids[i];
      }
    }
  }

  lemma SubtreeIsTopAndSubtrees(nodes: Nodes, roots: seq<Id>, id: Id)
    requires Forest(nodes, roots) && id in nodes
    ensures Subtree(nodes, id) == Subtrees(nodes, nodes[id].children) + {id}
  {
    hide Linked;
    var children := nodes[id].children;
    forall x | x in nodes
      ensures x in Subtree(nodes, id) <==> x == id || BelowAny(nodes, x, children)
    {
      SubtreeUnfolds(nodes, roots, id, x);
      if c :| c in children && x in Subtree(nodes, c) {
        var i :| 0 <= i < |children| && children[i] == c;
        assert Below(nodes, x, children[i]);
      }
      if BelowAny(nodes, x, children) {
        var i :| 0 <= i < |children| && Below(nodes, x, children[i]);
        assert children[i] in children && x in Subtree(nodes, children[i]);
      }
    }
  }

  lemma EarlierSubtreesApart(nodes: Nodes, roots: seq<Id>, id: Id, i: nat)
    requires Forest(nodes, roots) && id in nodes && i < |nodes[id].children|
    ensures Subtrees(nodes, nodes[id].children[..i]) !! Subtree(nodes, nodes[id].children[i])
    ensures Subtree(nodes, nodes[id].children[i]) <= Subtree(nodes, id)
    ensures nodes[id].children[i] in Subtree(nodes, nodes[id].children[i])
  {
    var children := nodes[id].children;
    assert LinkedAt(nodes, id);
    forall j | 0 <= j < i
      ensures Subtree(nodes, children[j]) !! Subtree(nodes, children[i])
    {
      SiblingsApart(nodes, roots, id, children[j], children[i]);
    }
    forall x | x in Subtree(nodes, children[i])
      ensures x in Subtree(nodes, id) && x !in Subtrees(nodes, children[..i])
    {
      SubtreeUnfolds(nodes, roots, id, x);
      forall j | 0 <= j < i
        ensures !Below(nodes, x, children[..i][j])
      {
        assert x !in Subtree(nodes, children[j]);
      }
    }
  }

  lemma RootsAreEntries(nodes: Nodes, roots: seq<Id>)
    requires Linked(nodes, roots)
    ensures roots != [] ==> nodes != map[]
  {
    if roots != [] {
      assert roots[0] in roots;
    }
  }

  /** With one root, every entry hangs below it. */
  lemma {:induction false} BelowTheRoot(nodes: Nodes, roots: seq<Id>, id: Id)
    requires Forest(nodes, roots) && |roots| <= 1 && id in nodes
    ensures |roots| == 1 && PathTo(nodes, id)[0] == roots[0]
  {
    PathSteps(nodes, id);
    assert PathTo(nodes, id)[0] in roots;
  }
}
