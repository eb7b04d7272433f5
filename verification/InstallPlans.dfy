/** When an install goes through: an order in which everything missing can be installed is enough, and
    where no package lies above another it is also needed. */
module InstallPlans {
  import opened Wrappers
  import opened Sequences
  import opened Manifests
  import opened Installs
  import opened InstallLaws

  /** `r` is on disk and no package of `names`, the primary aside, would take it away. */
  ghost predicate Stays(j: Job, names: set<Name>, r: Name) {
    j.At(r) in j.first && Untouched(j, names, j.At(r))
  }

  ghost predicate Untouched(j: Job, names: set<Name>, d: Path) {
    forall a :: a in names && a != j.primary.manifest.name ==> !(j.At(a) < d)
  }

  /** `rank` covers the primary and whatever it leads to that may be missing, and drops along every such
      requirement; the primary aside, none of them lies above another. */
  ghost predicate Plan(j: Job, rank: map<Name, nat>) {
    && j.primary.manifest.name in rank
    && (forall n {:trigger PlannedAt(j, rank, n)} :: n in rank ==> PlannedAt(j, rank, n))
    && (forall n {:trigger j.At(n)} :: n in rank ==> Untouched(j, rank.Keys, j.At(n)))
  }

  ghost predicate PlannedAt(j: Job, rank: map<Name, nat>, n: Name)
    requires n in rank
  {
    var found := j.Lookup(n);
    && found.Some? && found.value.manifest.name == n && Valid(found.value.manifest) && Clear(n)
    && forall r :: r in found.value.manifest.needs ==> Stays(j, rank.Keys, r) || (r in rank && rank[r] < rank[n])
  }

  ghost predicate Installable(j: Job) {
    exists rank :: Plan(j, rank)
  }

  /** The recursion has been following the plan down. */
  ghost predicate Follows(j: Job, chain: seq<Package>, done: seq<Package>, rank: map<Name, nat>) {
    && Plan(j, rank)
    && (forall i :: 0 <= i < |chain| ==>
          chain[i].manifest.name in rank && j.Lookup(chain[i].manifest.name) == Some(chain[i]))
    && (forall i, k :: 0 <= i < k < |chain| ==> rank[chain[k].manifest.name] < rank[chain[i].manifest.name])
    && (forall n :: n in Names(done) ==> n in rank)
  }

  lemma RecursionSucceeds(j: Job, source: Source, chain: seq<Package>, s: State, rank: map<Name, nat>)
    requires j.Underway(chain, s) && j.Asked(source, chain, s) && Follows(j, chain, s.done, rank)
    requires chain == [] ==> source in j.world && j.world[source].Some?
    ensures var o := Recursion(j.root, j.world, source, s);
      o.error.None? && Follows(j, chain, o.state.done, rank)
    decreases AllNames(j.world) - s.visited, 1, 0
  {
    hide Job.Underway, Follows, Valid, Dir, ThroughAFile, Land;
    PlannedNext(j, source, chain, s, rank);
    var p := j.world[source].value;
    assert p.manifest.name in AllNames(j.world);
    var t := s.(visited := s.visited + {p.manifest.name});
    j.Entering(source, p, chain, s);
    j.EnteredNeeds(chain, p);
    PullingSucceeds(j, p.manifest.needs, chain + [p], t, rank);
    var pulled := Pulling(j.root, j.world, p.manifest.needs, t);
    ClearGoesThrough(j, p, pulled.state.disk);
    FollowsOn(j, p, chain, pulled.state.done, rank);
  }

  lemma PullingSucceeds(j: Job, needs: seq<Name>, chain: seq<Package>, s: State, rank: map<Name, nat>)
    requires j.Underway(chain, s) && Follows(j, chain, s.done, rank) && chain != []
    requires forall r :: r in needs ==> r in chain[|chain| - 1].manifest.needs
    ensures var o := Pulling(j.root, j.world, needs, s);
      o.error.None? && Follows(j, chain, o.state.done, rank)
    decreases AllNames(j.world) - s.visited, 2, |needs|
  {
    hide Job.Underway, Follows, Valid, Dir, Installs.Recursion, Job.Settled, Job.Reported;
    if needs != [] {
      var r := needs[0];
      assert r in needs && forall x :: x in needs[1..] ==> x in needs;
      if j.At(r) in s.disk {
        PullingSucceeds(j, needs[1..], chain, s, rank);
      } else {
        j.RecursionKeeps(Latest(r), chain, s);
        RecursionSucceeds(j, Latest(r), chain, s, rank);
        PullingSucceeds(j, needs[1..], chain, Recursion(j.root, j.world, Latest(r), s).state, rank);
      }
    }
  }

  /** A planned source resolves, validates and is not on the way already. */
  lemma PlannedNext(j: Job, source: Source, chain: seq<Package>, s: State, rank: map<Name, nat>)
    requires j.Underway(chain, s) && j.Asked(source, chain, s) && Follows(j, chain, s.done, rank)
    requires chain == [] ==> source in j.world && j.world[source].Some?
    ensures source in j.world && j.world[source].Some?
    ensures var p := j.world[source].value;
      && Valid(p.manifest) && Clear(p.manifest.name) && p.manifest.name !in s.visited
      && Follows(j, chain + [p], s.done, rank)
  {
    hide Valid, Dir, Clear, Job.Sorted, Job.Placed, Job.Known, Job.Linked, Untouched, NoDup;
    if chain == [] {
      assert PlannedAt(j, rank, j.primary.manifest.name);
    } else {
      var last := chain[|chain| - 1];
      var r :| source == Latest(r) && r in last.manifest.needs && j.At(r) !in s.disk;
      assert PlannedAt(j, rank, last.manifest.name);
      j.NotYetBelow(chain, s);
      if Stays(j, rank.Keys, r) {
        StaysOnDisk(j, s.done, rank, j.At(r));
        assert false;
      }
      assert PlannedAt(j, rank, r);
      if r in Names(s.done) {
        var k :| 0 <= k < |s.done| && Names(s.done)[k] == r;
        j.BringsItself(s.done, k);
        StaysOnDisk(j, s.done, rank, j.At(r));
        assert false;
      }
      assert rank[r] < rank[last.manifest.name] <= rank[chain[0].manifest.name];
      assert forall i :: 0 <= i < |chain| ==> Names(chain)[i] != r;
    }
  }

  /** What is on disk, or has landed, and has no landed package above it is on disk still. */
  lemma StaysOnDisk(j: Job, done: seq<Package>, rank: map<Name, nat>, d: Path)
    requires Plan(j, rank) && Untouched(j, rank.Keys, d) && j.NotYet(done)
    requires forall n :: n in Names(done) ==> n in rank
    requires d in j.first || j.Brought(done, d)
    ensures d in j.Placed(done)
  {
    hide Job.Placed, Dir, Valid, Clear;
    j.OnDiskIff(done, d);
    j.LastOverIs(done, d);
    var last := j.LastOver(done, d);
    if last.Some? {
      var p := done[last.value];
      assert Names(done)[last.value] == p.manifest.name;
      assert PlannedAt(j, rank, p.manifest.name);
      var n := p.manifest.name;
      ValidIsPlain(j.Lookup(n).value.manifest);
      ClearIsNoManifest(j, n, d);
      assert n in Names(done) && n in rank.Keys;
      assert j.At(n) == d;
      j.BringsItself(done, last.value);
    }
  }

  lemma ClearIsNoManifest(j: Job, n: Name, d: Path)
    requires Clear(n) && Plain(n)
    ensures j.At(n) != d + [MANIFEST_NAME]
  {
    PlainDir(j.root, n);
    var parts := Split(n, '/');
    assert (j.root + parts)[|j.root + parts| - 1] == parts[|parts| - 1];
    assert parts[|parts| - 1] in parts;
  }

  lemma ClearGoesThrough(j: Job, p: Package, disk: Disk)
    requires Valid(p.manifest) && Clear(p.manifest.name)
    ensures !ThroughAFile(j.root, disk, j.Where(p))
  {
    ValidIsPlain(p.manifest);
    PlainDir(j.root, p.manifest.name);
    var parts := Split(p.manifest.name, '/');
    hide Dir, Valid;
    forall d | d in disk && j.root <= d
      ensures !(d + [MANIFEST_NAME] < j.root + parts)
    {
      if |d| < |j.root + parts| {
        var k := |d| - |j.root|;
        assert (j.root + parts)[|d|] == parts[k] && parts[k] in parts;
        assert (d + [MANIFEST_NAME])[|d|] == MANIFEST_NAME;
      }
    }
  }

  lemma FollowsOn(j: Job, p: Package, chain: seq<Package>, done: seq<Package>, rank: map<Name, nat>)
    requires Follows(j, chain + [p], done, rank)
    ensures Follows(j, chain, done + [p], rank)
  {
    hide Plan;
    var longer := chain + [p];
    assert longer[|chain|] == p && forall i :: 0 <= i < |chain| ==> longer[i] == chain[i];
    assert Names(done + [p]) == Names(done) + [p.manifest.name];
  }

  /** Whatever can be installed is. */
  lemma InstallableSucceeds(j: Job, source: Source)
    requires source in j.world && j.world[source] == Some(j.primary)
    ensures Installable(j) ==> Installing(j.root, j.world, source, j.first).error.None?
  {
    if Installable(j) {
      var rank :| Plan(j, rank);
      var s := State(j.first, [], {});
      assert j.Underway([], s) && Follows(j, [], [], rank);
      hide Plan, Installs.Recursion;
      RecursionSucceeds(j, source, [], s, rank);
    }
  }

  // ---- and nothing else is

  /** No package lies above another or above what is on disk, none brings others along, and no name
      leads through a manifest file. */
  ghost predicate Separate(j: Job) {
    && (forall a :: a in AllNames(j.world) ==> Clear(a) && SeparateName(j, a))
    && (forall source :: source in j.world && j.world[source].Some? ==> j.world[source].value.others == map[])
  }

  ghost predicate SeparateName(j: Job, a: Name) {
    && (forall d :: d in j.first ==> !(j.At(a) < d))
    && (forall b :: b in AllNames(j.world) ==> !(j.At(a) < j.At(b)))
  }

  function IndexOf(names: seq<Name>, name: Name): (i: nat)
    requires name in names
    ensures i < |names| && names[i] == name && forall k :: 0 <= k < i ==> names[k] != name
  {
    if names[0] == name then 0 else 1 + IndexOf(names[1..], name)
  }

  lemma IndexIsFirst(names: seq<Name>, name: Name, i: nat)
    requires i <= |names| && name in names[..i]
    ensures IndexOf(names, name) < i
  {
    var k :| 0 <= k < i && names[k] == name;
  }

  /** The order in which things landed is a plan. */
  lemma LandedIsPlanned(j: Job, source: Source, done: seq<Package>)
    requires Honest(j.world) && Tidy(j.world) && Separate(j) && j.Sorted(done) && j.Known(done) && NoDup(Names(done))
    requires done != [] && done[|done| - 1] == j.primary
    requires source in j.world && j.world[source] == Some(j.primary)
    ensures Installable(j)
  {
    hide Dir, Valid, Plain, Clear, Job.Provided;
    var names := Names(done);
    var rank := map n | n in names :: IndexOf(names, n);
    assert names[|done| - 1] == j.primary.manifest.name;
    AllFromWorld(j, source, done);
    forall n | n in rank
      ensures PlannedAt(j, rank, n) && Untouched(j, rank.Keys, j.At(n))
    {
      var i := IndexOf(names, n);
      assert done[i].manifest.name == n && done[i] in done;
      assert j.SortedAt(done, i) && SeparateName(j, n);
      forall a | a in rank.Keys
        ensures !(j.At(a) < j.At(n))
      {
        assert done[IndexOf(names, a)] in done && SeparateName(j, a);
      }
      forall r | r in done[i].manifest.needs
        ensures Stays(j, rank.Keys, r) || (r in rank && rank[r] < rank[n])
      {
        NeedIsPlanned(j, done, i, r);
        if r in names[..i] {
          IndexIsFirst(names, r, i);
        }
      }
    }
    assert Plan(j, rank);
  }

  lemma AllFromWorld(j: Job, source: Source, done: seq<Package>)
    requires j.Known(done) && source in j.world && j.world[source] == Some(j.primary)
    ensures forall p :: p in done ==>
      p.manifest.name in AllNames(j.world) && exists from :: from in j.world && j.world[from] == Some(p)
  {
    hide Valid;
    forall p | p in done
      ensures p.manifest.name in AllNames(j.world) && exists from :: from in j.world && j.world[from] == Some(p)
    {
      var k :| 0 <= k < |done| && done[k] == p;
      assert j.Lookup(p.manifest.name) == Some(p);
      var from := if p.manifest.name == j.primary.manifest.name then source else Latest(p.manifest.name);
      assert from in j.world && j.world[from] == Some(p);
    }
  }

  lemma NeedIsPlanned(j: Job, done: seq<Package>, i: nat, r: Name)
    requires Honest(j.world) && Tidy(j.world) && Separate(j) && j.Sorted(done) && j.Known(done)
    requires i < |done| && r in done[i].manifest.needs
    requires forall p :: p in done ==>
      p.manifest.name in AllNames(j.world) && exists from :: from in j.world && j.world[from] == Some(p)
    ensures r in Names(done)[..i] || (j.At(r) in j.first && forall n :: n in Names(done) ==> !(j.At(n) < j.At(r)))
  {
    hide Dir, Valid, Plain, Clear;
    assert j.SortedAt(done, i) && done[i] in done;
    var before := done[..i];
    assert Names(before) == Names(done)[..i];
    if j.At(r) in j.first {
      forall n | n in Names(done)
        ensures !(j.At(n) < j.At(r))
      {
        var k :| 0 <= k < |done| && Names(done)[k] == n;
        assert done[k] in done;
        assert SeparateName(j, n);
      }
    } else {
      if j.Answered(before, r) {
        AnsweredIsBrought(j, before, r);
      }
      var k :| 0 <= k < |before| && j.Holds(before[k], j.At(r));
      assert done[k] in done && before[k] == done[k];
      assert done[k].others == map[];
      HeldAtItsPlace(j, done[k], r);
    }
  }

  /** Where no package lies above another, an install goes through exactly when there is a plan for it. */
  lemma InstallsIff(j: Job, source: Source)
    requires Honest(j.world) && Tidy(j.world) && Separate(j)
    requires source in j.world && j.world[source] == Some(j.primary)
    ensures Installing(j.root, j.world, source, j.first).error.None? <==> Installable(j)
  {
    hide Separate, Installable;
    InstallableSucceeds(j, source);
    InstallKeepsOrder(j, source);
    if Installing(j.root, j.world, source, j.first).error.None? {
      LandedIsPlanned(j, source, Installing(j.root, j.world, source, j.first).state.done);
    }
  }
}
