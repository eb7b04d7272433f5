/** What an install promises, proved of the recursion: the order of landing, what is on disk
    afterwards, what a reported cycle means, and when an install goes through. */
module InstallLaws {
  import opened Wrappers
  import opened Sequences
  import opened Manifests
  import opened Installs

  /** The registry serves packages under the names their manifests carry. */
  ghost predicate Honest(world: World) {
    forall n :: Latest(n) in world && world[Latest(n)].Some? ==> world[Latest(n)].value.manifest.name == n
  }

  /** Requirements are spelled the way packages are named. */
  ghost predicate Tidy(world: World) {
    forall source, r ::
      source in world && world[source].Some? && r in world[source].value.manifest.needs ==> Plain(r)
  }

  /** No part of the name is that of a manifest file. */
  predicate Clear(name: Name) {
    MANIFEST_NAME !in Split(name, '/')
  }

  function Look(disk: Disk, d: Path): Option<Option<Manifest>> {
    if d in disk then Some(disk[d]) else None
  }

  /** One install: the root, what sources resolve to, the tree it starts from, and the package asked for. */
  datatype Job = Job(root: Path, world: World, first: Disk, primary: Package) {

    function At(name: Name): Path {
      Dir(root, name)
    }

    function Where(p: Package): Path {
      At(p.manifest.name)
    }

    /** The package has a manifest at `d` once it is in place. */
    predicate Holds(p: Package, d: Path) {
      Where(p) <= d && d[|Where(p)|..] in p.Tree()
    }

    /** The tree once `done` have landed, in order. */
    function Placed(done: seq<Package>): Disk {
      if done == [] then first
      else
        var last := done[|done| - 1];
        Land(Placed(done[..|done| - 1]), Where(last), last.Tree())
    }

    /** What it shows at `d`: a manifest, one that does not parse, or none. */
    function Shown(p: Package, d: Path): Option<Option<Manifest>> {
      if Holds(p, d) then Some(p.Tree()[d[|Where(p)|..]]) else None
    }

    /** The last package to come down over `d`. */
    function LastOver(done: seq<Package>, d: Path): (last: Option<nat>)
      ensures last.Some? ==> last.value < |done|
    {
      if done == [] then None
      else if Over(Where(done[|done| - 1]), d) then Some(|done| - 1)
      else LastOver(done[..|done| - 1], d)
    }

    lemma {:induction false} LastOverIs(done: seq<Package>, d: Path)
      ensures var last := LastOver(done, d);
        && (last.None? ==> forall i :: 0 <= i < |done| ==> !Over(Where(done[i]), d))
        && (last.Some? ==> Over(Where(done[last.value]), d)
                           && forall i :: last.value < i < |done| ==> !Over(Where(done[i]), d))
    {
      hide Dir, Over;
      if done != [] {
        LastOverIs(done[..|done| - 1], d);
      }
    }

    /** The last package to come down over `d` has nothing there. */
    predicate Wiped(done: seq<Package>, d: Path) {
      var last := LastOver(done, d);
      last.Some? && !Holds(done[last.value], d)
    }

    ghost predicate Brought(done: seq<Package>, d: Path) {
      exists k {:trigger Holds(done[k], d)} :: 0 <= k < |done| && Holds(done[k], d)
    }

    // ---- what is on disk afterwards

    /** A path shows what the last package to come down over it has there, else what it showed before. */
    lemma {:induction false} PlacedByLast(done: seq<Package>, d: Path)
      ensures Look(Placed(done), d) == var last := LastOver(done, d);
        if last.Some? then Shown(done[last.value], d) else Look(first, d)
    {
      NothingPlaced();
      hide Dir, Over, Land, Shown, Look, Placed, Where;
      if done != [] {
        var n := |done| - 1;
        PlacedByLast(done[..n], d);
        LandsAt(done[..n], done[n], d);
        assert done[..n] + [done[n]] == done;
      }
    }

    lemma NothingPlaced()
      ensures Placed([]) == first
    {
    }

    lemma LandsAt(before: seq<Package>, p: Package, d: Path)
      ensures Look(Placed(before + [p]), d) == if Over(Where(p), d) then Shown(p, d) else Look(Placed(before), d)
    {
      hide Dir;
      assert (before + [p])[..|before|] == before;
    }

    /** A package is on disk afterwards exactly when it was there or was brought, and the last one to
        come down over it has it. */
    lemma OnDiskIff(done: seq<Package>, d: Path)
      ensures d in Placed(done) <==> !Wiped(done, d) && (d in first || Brought(done, d))
    {
      hide Placed, Dir;
      PlacedByLast(done, d);
      LastOverIs(done, d);
      var last := LastOver(done, d);
      if last.Some? {
        assert Holds(done[last.value], d) ==> Brought(done, d);
      } else {
        assert forall k :: 0 <= k < |done| && Holds(done[k], d) ==> Over(Where(done[k]), d);
      }
    }

    // ---- the order of landing

    /** The registry answered the requirement, under whatever name, with something that has landed. */
    ghost predicate Answered(done: seq<Package>, r: Name) {
      Latest(r) in world && world[Latest(r)].Some? && world[Latest(r)].value.manifest.name in Names(done)
    }

    /** The requirement was on disk to begin with, or came with one of `done`. */
    ghost predicate Provided(done: seq<Package>, r: Name) {
      At(r) in first || Brought(done, At(r)) || Answered(done, r)
    }

    ghost predicate SortedAt(done: seq<Package>, i: nat)
      requires i < |done|
    {
      Valid(done[i].manifest) && forall r :: r in done[i].manifest.needs ==> Provided(done[..i], r)
    }

    /** Every package came after everything it requires. */
    ghost predicate Sorted(done: seq<Package>) {
      forall i {:trigger SortedAt(done, i)} :: 0 <= i < |done| ==> SortedAt(done, i)
    }

    /** The package an install deals with under a name: the one asked for, else the registry's. */
    function Lookup(name: Name): Option<Package> {
      if name == primary.manifest.name then Some(primary)
      else if Latest(name) in world then world[Latest(name)] else None
    }

    ghost predicate Known(packages: seq<Package>) {
      forall i :: 0 <= i < |packages| ==>
        Valid(packages[i].manifest) && Lookup(packages[i].manifest.name) == Some(packages[i])
    }

    // ---- loops

    /** The part of the tree that nothing has come down over. */
    function Standing(done: seq<Package>): Disk {
      map d | d in first && (forall i :: 0 <= i < |done| ==> !Over(Where(done[i]), d)) :: first[d]
    }

    /** A closed loop of requirements, none of them on `disk`. */
    ghost predicate Loop(disk: Disk, names: seq<Name>) {
      names != [] && forall i {:trigger LoopStep(disk, names, i)} :: 0 <= i < |names| ==> LoopStep(disk, names, i)
    }

    ghost predicate LoopStep(disk: Disk, names: seq<Name>, i: nat)
      requires i < |names|
    {
      var next := names[if i + 1 < |names| then i + 1 else 0];
      var found := Lookup(names[i]);
      found.Some? && next in found.value.manifest.needs && Plain(next) && At(next) !in disk
    }

    // ---- the invariant of the recursion

    ghost predicate Settled(s: State) {
      && NoDup(Names(s.done))
      && s.disk == Placed(s.done)
      && Sorted(s.done)
      && (Honest(world) ==> Known(s.done))
    }

    /** `chain`: the packages whose requirements are being pulled, outermost first. */
    ghost predicate Underway(chain: seq<Package>, s: State) {
      && Settled(s)
      && s.visited == Elements(Names(chain)) + Elements(Names(s.done))
      && NoDup(Names(chain) + Names(s.done))
      && (chain != [] ==> chain[0] == primary)
      && (Honest(world) ==> Known(chain) && Linked(s.done, chain))
    }

    /** Each package on the chain is required by the one before it, and was not on disk. */
    ghost predicate Linked(done: seq<Package>, chain: seq<Package>) {
      forall i :: 0 < i < |chain| ==>
        chain[i].manifest.name in chain[i - 1].manifest.needs && Where(chain[i]) !in Standing(done)
    }

    /** The source is what the recursion may ask for next: the primary, or a missing requirement of the
        innermost package on the chain. */
    ghost predicate Asked(source: Source, chain: seq<Package>, s: State) {
      if chain == [] then
        s.done == [] && (source in world && world[source].Some? ==> world[source] == Some(primary))
      else
        exists r :: source == Latest(r) && r in chain[|chain| - 1].manifest.needs && At(r) !in s.disk
    }

    /** A reported cycle is a real one, unless the package has landed and been wiped again. */
    ghost predicate Reported(o: Outcome) {
      o.error.Some? && o.error.value.Cycle? && Honest(world) ==>
        var n := o.error.value.name;
        if n in Names(o.state.done) then At(n) !in o.state.disk
        else exists names :: Loop(Standing(o.state.done), names) && names[0] == n && NoneIn(names, o.state.done)
    }

    ghost predicate NoneIn(names: seq<Name>, done: seq<Package>) {
      forall n :: n in names ==> n !in Names(done)
    }

    ghost predicate NotYet(done: seq<Package>) {
      primary.manifest.name !in Names(done)
    }

    lemma RecursionKeeps(source: Source, chain: seq<Package>, s: State)
      requires Underway(chain, s) && Asked(source, chain, s)
      ensures var o := Recursion(root, world, source, s);
        && s.done <= o.state.done && Settled(o.state) && Reported(o)
        && (o.error.Some? ==> NotYet(o.state.done))
        && (o.error.None? ==> Underway(chain, o.state) && source in world && o.state.done != []
                              && world[source] == Some(o.state.done[|o.state.done| - 1]))
      decreases AllNames(world) - s.visited, 1, 0
    {
      hide Placed, Land, Sorted, Valid, Names, Elements, Asked, NoDup, Known, Linked, Standing, Loop, Dir, Underway,
        Settled, NotYet, Reported, Putting;
      SettledSo(chain, s);
      NotYetLanded(source, chain, s);
      QuietErrors(s);
      if source in world && world[source].Some? && Valid(world[source].value.manifest) {
        var p := world[source].value;
        var name := p.manifest.name;
        if name in s.visited {
          if Honest(world) {
            CycleIsALoop(source, p, chain, s);
          }
        } else {
          assert name in AllNames(world);
          var t := s.(visited := s.visited + {name});
          Entering(source, p, chain, s);
          EnteredNeeds(chain, p);
          PullingKeeps(p.manifest.needs, chain + [p], t);
          PuttingKeeps(p, chain, Pulling(root, world, p.manifest.needs, t));
        }
      }
    }

    lemma PuttingKeeps(p: Package, chain: seq<Package>, pulled: Outcome)
      requires Valid(p.manifest) && Settled(pulled.state) && Reported(pulled)
      requires pulled.error.Some? ==> NotYet(pulled.state.done)
      requires pulled.error.None? ==>
        Underway(chain + [p], pulled.state) && forall r :: r in p.manifest.needs ==> Provided(pulled.state.done, r)
      ensures var o := Putting(root, p, pulled);
        && pulled.state.done <= o.state.done && Settled(o.state) && Reported(o)
        && (o.error.Some? ==> NotYet(o.state.done))
        && (o.error.None? ==> Underway(chain, o.state) && o.state.done != [] && p == o.state.done[|o.state.done| - 1])
    {
      hide Land, Valid, Dir, Underway, Settled, NotYet, Reported, Provided;
      var o := Putting(root, p, pulled);
      if o.error.None? {
        Landing(p, chain, pulled.state);
        SettledSo(chain, o.state);
        QuietErrors(o.state);
      } else if pulled.error.None? {
        EnteredNeeds(chain, p);
        NotYetBelow(chain + [p], pulled.state);
        QuietErrors(pulled.state);
      }
    }

    lemma EnteredNeeds(chain: seq<Package>, p: Package)
      ensures chain + [p] != [] && (chain + [p])[|chain + [p]| - 1] == p
    {
    }

    lemma PullingKeeps(needs: seq<Name>, chain: seq<Package>, s: State)
      requires Underway(chain, s) && chain != []
      requires forall r :: r in needs ==> r in chain[|chain| - 1].manifest.needs
      ensures var o := Pulling(root, world, needs, s);
        && s.done <= o.state.done && Settled(o.state) && Reported(o)
        && (o.error.Some? ==> NotYet(o.state.done))
        && (o.error.None? ==> Underway(chain, o.state) && forall r :: r in needs ==> Provided(o.state.done, r))
      decreases AllNames(world) - s.visited, 2, |needs|
    {
      hide Placed, Land, Sorted, Names, Elements, NoDup, Known, Linked, Standing, Loop, Dir, Provided, Recursion,
        NotYet, Reported, Underway, Settled;
      SettledSo(chain, s);
      if needs != [] {
        var r := needs[0];
        assert r in needs && forall x :: x in needs[1..] ==> x in needs;
        if At(r) in s.disk {
          OnDiskIsProvided(chain, s, r);
          PullingKeeps(needs[1..], chain, s);
          StaysProvided(s.done, Pulling(root, world, needs[1..], s).state.done, r);
        } else {
          RecursionKeeps(Latest(r), chain, s);
          var o := Recursion(root, world, Latest(r), s);
          if o.error.None? {
            FetchedIsProvided(o.state.done, r);
            PullingKeeps(needs[1..], chain, o.state);
            StaysProvided(o.state.done, Pulling(root, world, needs[1..], o.state).state.done, r);
          }
        }
      } else {
        QuietErrors(s);
      }
    }

    lemma SettledSo(chain: seq<Package>, s: State)
      requires Underway(chain, s)
      ensures Settled(s)
    {
    }

    lemma QuietErrors(s: State)
      ensures forall error: Option<Error> :: error.None? || !error.value.Cycle? || !Honest(world) ==>
        Reported(Outcome(error, s))
    {
    }

    // ---- its steps

    lemma NotYetLanded(source: Source, chain: seq<Package>, s: State)
      requires Underway(chain, s) && Asked(source, chain, s)
      ensures NotYet(s.done)
    {
      hide Placed, Sorted, Known, Linked;
      if chain != [] {
        NotYetBelow(chain, s);
      }
    }

    lemma NotYetBelow(chain: seq<Package>, s: State)
      requires Underway(chain, s) && chain != []
      ensures NotYet(s.done)
    {
      hide Placed, Sorted, Known, Linked;
      assert (Names(chain) + Names(s.done))[0] == primary.manifest.name;
      assert forall i :: 0 <= i < |s.done| ==> (Names(chain) + Names(s.done))[|chain| + i] == Names(s.done)[i];
    }

    lemma OnDiskIsProvided(chain: seq<Package>, s: State, r: Name)
      requires Underway(chain, s) && At(r) in s.disk
      ensures Provided(s.done, r)
    {
      OnDiskIff(s.done, At(r));
    }

    lemma FetchedIsProvided(done: seq<Package>, r: Name)
      requires Latest(r) in world && done != [] && world[Latest(r)] == Some(done[|done| - 1])
      ensures Provided(done, r)
    {
      assert Names(done)[|done| - 1] in Names(done);
    }

    lemma StaysProvided(done: seq<Package>, more: seq<Package>, r: Name)
      requires done <= more && Provided(done, r)
      ensures Provided(more, r)
    {
      assert Names(done) <= Names(more);
      if k :| 0 <= k < |done| && Holds(done[k], At(r)) {
        assert Holds(more[k], At(r));
      }
    }

    lemma StandingIsOnDisk(done: seq<Package>, d: Path)
      ensures d in Standing(done) ==> d in Placed(done)
    {
      PlacedByLast(done, d);
      LastOverIs(done, d);
    }

    lemma BringsItself(done: seq<Package>, i: nat)
      requires i < |done|
      ensures Holds(done[i], Where(done[i])) && Brought(done, Where(done[i]))
    {
      hide Dir;
      assert Where(done[i])[|Where(done[i])|..] == [];
    }

    /** A package met again is on the chain still, and the chain from there closes a loop; or it has
        landed, and was asked for because it has gone. */
    lemma CycleIsALoop(source: Source, p: Package, chain: seq<Package>, s: State)
      requires Honest(world) && Underway(chain, s) && Asked(source, chain, s)
      requires source in world && world[source] == Some(p) && Valid(p.manifest) && p.manifest.name in s.visited
      ensures Reported(Outcome(Some(Cycle(p.manifest.name)), s))
    {
      hide Valid, Sorted, Placed, Standing, Dir, NoDup, Known, Linked, Loop;
      assert chain != [];
      var r :| source == Latest(r) && r in chain[|chain| - 1].manifest.needs && At(r) !in s.disk;
      assert r == p.manifest.name;
      if r !in Names(s.done) {
        StandingIsOnDisk(s.done, At(r));
        assert r in Names(chain);
        ChainIsApart(chain, s);
        ChainCloses(r, chain, s.done);
      }
    }

    lemma ChainIsApart(chain: seq<Package>, s: State)
      requires Underway(chain, s)
      ensures NoneIn(Names(chain), s.done)
    {
      hide Settled, Known, Linked;
      var all := Names(chain) + Names(s.done);
      forall n | n in Names(chain)
        ensures n !in Names(s.done)
      {
        var i :| 0 <= i < |chain| && Names(chain)[i] == n;
        assert forall k :: 0 <= k < |s.done| ==> all[|chain| + k] == Names(s.done)[k] && all[i] == n;
      }
    }

    lemma ChainCloses(r: Name, chain: seq<Package>, done: seq<Package>)
      requires chain != [] && Known(chain) && Linked(done, chain) && r in Names(chain)
      requires r in chain[|chain| - 1].manifest.needs && At(r) !in Standing(done) && NoneIn(Names(chain), done)
      ensures exists names :: Loop(Standing(done), names) && names[0] == r && NoneIn(names, done)
    {
      hide Standing, Valid, Dir, Plain;
      var j :| 0 <= j < |chain| && Names(chain)[j] == r;
      var names := Names(chain)[j..];
      forall i | 0 <= i < |names|
        ensures LoopStep(Standing(done), names, i)
      {
        assert names[i] == chain[j + i].manifest.name;
        ValidIsPlain(chain[if i + 1 < |names| then j + i + 1 else j].manifest);
      }
      assert Loop(Standing(done), names);
    }

    lemma Entering(source: Source, p: Package, chain: seq<Package>, s: State)
      requires Underway(chain, s) && Asked(source, chain, s)
      requires source in world && world[source] == Some(p) && Valid(p.manifest) && p.manifest.name !in s.visited
      ensures Underway(chain + [p], s.(visited := s.visited + {p.manifest.name}))
    {
      hide Placed, Sorted, Valid, Known, Linked, Dir;
      var longer := chain + [p];
      assert Names(longer) == Names(chain) + [p.manifest.name];
      assert Elements(Names(longer)) == Elements(Names(chain)) + {p.manifest.name};
      InsertInTheMiddle(Names(chain), p.manifest.name, Names(s.done));
      if Honest(world) {
        EnteringHonest(source, p, chain, s);
      }
    }

    lemma EnteringHonest(source: Source, p: Package, chain: seq<Package>, s: State)
      requires Honest(world) && Underway(chain, s) && Asked(source, chain, s)
      requires source in world && world[source] == Some(p) && Valid(p.manifest) && p.manifest.name !in s.visited
      ensures Known(chain + [p]) && Linked(s.done, chain + [p])
    {
      hide Placed, Sorted, Valid, Standing, Dir, NoDup, Elements;
      if chain != [] {
        var r :| source == Latest(r) && r in chain[|chain| - 1].manifest.needs && At(r) !in s.disk;
        assert p.manifest.name == r;
        StandingIsOnDisk(s.done, At(r));
        assert Names(chain)[0] == primary.manifest.name;
      }
      assert Lookup(p.manifest.name) == Some(p);
    }

    lemma Landing(p: Package, chain: seq<Package>, s: State)
      requires Underway(chain + [p], s) && Valid(p.manifest)
      requires forall r :: r in p.manifest.needs ==> Provided(s.done, r)
      ensures Underway(chain, State(Land(s.disk, Where(p), p.Tree()), s.done + [p], s.visited))
    {
      hide Sorted, Valid, Known, Linked, Land, Dir, Provided;
      var done := s.done + [p];
      assert Names(chain + [p]) == Names(chain) + [p.manifest.name];
      assert Names(done) == Names(s.done) + [p.manifest.name];
      assert done[..|done| - 1] == s.done;
      MoveToTheEnd(Names(chain), p.manifest.name, Names(s.done));
      LandingSorted(p, s.done);
      assert chain != [] ==> (chain + [p])[0] == chain[0];
      if Honest(world) {
        LandingKnown(p, chain, s.done);
      }
    }

    lemma LandingSorted(p: Package, done: seq<Package>)
      requires Sorted(done) && Valid(p.manifest) && forall r :: r in p.manifest.needs ==> Provided(done, r)
      ensures Sorted(done + [p])
    {
      hide Provided, Valid;
      var longer := done + [p];
      forall i | 0 <= i < |longer|
        ensures SortedAt(longer, i)
      {
        assert i == |done| ==> longer[..i] == done;
        assert i < |done| ==> longer[..i] == done[..i] && SortedAt(done, i);
      }
    }

    lemma LandingKnown(p: Package, chain: seq<Package>, done: seq<Package>)
      requires Known(chain + [p]) && Linked(done, chain + [p]) && Known(done)
      ensures Known(chain) && Known(done + [p]) && Linked(done + [p], chain)
    {
      hide Valid, Dir, Over;
      var longer, more := chain + [p], done + [p];
      assert longer[|chain|] == p;
      assert forall i :: 0 <= i < |chain| ==> longer[i] == chain[i];
      forall d | d in Standing(more)
        ensures d in Standing(done)
      {
        assert forall i :: 0 <= i < |done| ==> more[i] == done[i];
      }
    }
  }

  // ---- what an install promises

  /** Each package lands once and after everything it requires, the primary last, and not at all when
      the install fails; nothing else touches the tree; a reported cycle is one, unless the package has
      landed and gone. */
  lemma InstallKeepsOrder(j: Job, source: Source)
    requires source in j.world && j.world[source].Some? ==> j.world[source] == Some(j.primary)
    ensures var o := Installing(j.root, j.world, source, j.first); var done := o.state.done;
      && NoDup(Names(done)) && j.Sorted(done) && o.state.disk == j.Placed(done) && j.Reported(o)
      && (Honest(j.world) ==> j.Known(done))
      && (o.error.Some? ==> j.primary.manifest.name !in Names(done))
      && (o.error.None? ==> source in j.world && done != [] && j.world[source] == Some(done[|done| - 1]))
  {
    hide Valid, Dir, Installs.Recursion;
    var s := State(j.first, [], {});
    assert j.Underway([], s);
    j.RecursionKeeps(source, [], s);
  }

  /** What lands, lands on top of what has landed, and a success lands something. */
  lemma RecursionGrows(root: Path, world: World, source: Source, s: State)
    ensures var o := Recursion(root, world, source, s);
      |s.done| <= |o.state.done| && (o.error.None? ==> |s.done| < |o.state.done|)
    decreases AllNames(world) - s.visited, 1, 0
  {
    hide Dir, Land, Valid, ThroughAFile;
    if source in world && world[source].Some? && Valid(world[source].value.manifest) {
      var p := world[source].value;
      if p.manifest.name !in s.visited {
        assert p.manifest.name in AllNames(world);
        PullingGrows(root, world, p.manifest.needs, s.(visited := s.visited + {p.manifest.name}));
      }
    }
  }

  /** The requirements land nothing exactly when none is missing. */
  lemma PullingGrows(root: Path, world: World, needs: seq<Name>, s: State)
    ensures var o := Pulling(root, world, needs, s);
      && |s.done| <= |o.state.done|
      && (o.error.None? ==> (|s.done| == |o.state.done| <==> forall r :: r in needs ==> Dir(root, r) in s.disk))
    decreases AllNames(world) - s.visited, 2, |needs|
  {
    hide Dir, Installs.Recursion;
    if needs != [] {
      assert needs == [needs[0]] + needs[1..];
      if Dir(root, needs[0]) in s.disk {
        PullingGrows(root, world, needs[1..], s);
      } else {
        RecursionGrows(root, world, Latest(needs[0]), s);
        PullingGrows(root, world, needs[1..], Recursion(root, world, Latest(needs[0]), s).state);
      }
    }
  }

  /** The primary of an install that goes through comes first in what landed exactly when none of its
      requirements was missing: then nothing else landed. */
  lemma PrimaryFirstIff(j: Job, source: Source)
    requires source in j.world && j.world[source] == Some(j.primary)
    requires Installing(j.root, j.world, source, j.first).error.None?
    ensures var done := Installing(j.root, j.world, source, j.first).state.done;
      && done != [] && done[|done| - 1] == j.primary
      && (done[0] == j.primary <==> forall r :: r in j.primary.manifest.needs ==> j.At(r) in j.first)
  {
    InstallKeepsOrder(j, source);
    var done := Installing(j.root, j.world, source, j.first).state.done;
    assert Names(done)[0] == done[0].manifest.name && Names(done)[|done| - 1] == j.primary.manifest.name;
    var s := State(j.first, [], {j.primary.manifest.name});
    assert State(j.first, [], {}).visited + {j.primary.manifest.name} == s.visited;
    PullingGrows(j.root, j.world, j.primary.manifest.needs, s);
    LandsOneMore(j, source);
  }

  lemma LandsOneMore(j: Job, source: Source)
    requires source in j.world && j.world[source] == Some(j.primary)
    requires Installing(j.root, j.world, source, j.first).error.None?
    ensures var name := j.primary.manifest.name;
      var pulled := Pulling(j.root, j.world, j.primary.manifest.needs, State(j.first, [], {} + {name}));
      pulled.error.None? && Installing(j.root, j.world, source, j.first).state.done == pulled.state.done + [j.primary]
  {
    hide Pulling, Dir, Land, ThroughAFile, Valid;
  }

  lemma AnsweredIsBrought(j: Job, done: seq<Package>, r: Name)
    requires Honest(j.world) && j.Answered(done, r)
    ensures j.Brought(done, j.At(r))
  {
    hide Dir;
    var k :| 0 <= k < |done| && Names(done)[k] == r;
    j.BringsItself(done, k);
  }

  /** With an honest registry a landed package finds a requirement on disk exactly when the last package
      to come down over it has it. */
  lemma RequirementsMetIff(j: Job, done: seq<Package>)
    requires Honest(j.world) && j.Sorted(done)
    ensures forall p, r :: p in done && r in p.manifest.needs ==>
              (j.At(r) in j.Placed(done) <==> !j.Wiped(done, j.At(r)))
  {
    hide Job.Placed, Job.Wiped, Dir, Valid, Job.Holds;
    forall p, r | p in done && r in p.manifest.needs
      ensures j.At(r) in j.Placed(done) <==> !j.Wiped(done, j.At(r))
    {
      var i :| 0 <= i < |done| && done[i] == p;
      NeedIsProvided(j, done, i, r);
      j.OnDiskIff(done, j.At(r));
    }
  }

  /** Where the scan looks, nothing lies above anything else: on a tree of such packages, an install of
      such packages loses nothing. */
  lemma ScannedNeverLost(j: Job, done: seq<Package>, d: Path)
    requires forall e :: e in j.first ==> ScanShape(j.root, e)
    requires forall p :: p in done ==> ScanShape(j.root, j.Where(p))
    requires d in j.first || exists i :: 0 <= i < |done| && d == j.Where(done[i])
    ensures d in j.Placed(done) && !j.Wiped(done, d)
  {
    hide Job.Placed, Dir;
    assert ScanShape(j.root, d);
    j.LastOverIs(done, d);
    j.OnDiskIff(done, d);
    var last := j.LastOver(done, d);
    if last.Some? {
      var top := j.Where(done[last.value]);
      assert ScanShape(j.root, top);
      assert top == d;
      j.BringsItself(done, last.value);
    }
  }

  // ---- what the loader makes of it

  /** The scan lists a package that landed exactly when its path has one of the two shapes the scan looks
      for; the installer's own check also lets other names through. */
  lemma LandedIsAcceptedIff(root: Path, disk: Disk, m: Manifest)
    requires Valid(m) && Dir(root, m.name) in disk && disk[Dir(root, m.name)] == Some(m)
    ensures Accepted(root, disk, Dir(root, m.name)) <==> ScanShape(root, Dir(root, m.name))
  {
    ValidIsPlain(m);
    PlainNameAt(root, m.name);
    hide Dir, Plain;
  }

  lemma PlainNameAt(root: Path, name: Name)
    requires Plain(name)
    ensures ScanShape(root, Dir(root, name)) ==> NameAt(root, Dir(root, name)) == name
  {
    PlainDir(root, name);
    JoinSplit(name, '/');
    assert (root + Split(name, '/'))[|root|..] == Split(name, '/');
  }

  /** Where the scan looks, a path shows the package that landed there, else what it showed before. */
  lemma ScannedShows(j: Job, done: seq<Package>, d: Path)
    requires ScanShape(j.root, d) && forall p :: p in done ==> ScanShape(j.root, j.Where(p))
    ensures j.LastOver(done, d).None? ==>
      Look(j.Placed(done), d) == Look(j.first, d) && forall k :: 0 <= k < |done| ==> j.Where(done[k]) != d
    ensures j.LastOver(done, d).Some? ==> var p := done[j.LastOver(done, d).value];
      j.Where(p) == d && Look(j.Placed(done), d) == Some(Some(p.manifest))
  {
    hide Job.Placed, Dir;
    j.LastOverIs(done, d);
    j.PlacedByLast(done, d);
    var last := j.LastOver(done, d);
    if last.Some? {
      assert done[last.value] in done;
      assert j.Where(done[last.value]) == d && d[|d|..] == [];
    }
  }

  /** On a tree of accepted packages, with an honest registry and plainly spelled names of the two scanned
      shapes, everything an install lands is mounted by the next boot. */
  lemma LandedLoads(j: Job, done: seq<Package>, i: nat)
    requires Honest(j.world) && j.Sorted(done) && NoDup(Names(done)) && i < |done|
    requires forall d :: d in j.first ==> Accepted(j.root, j.first, d)
    requires forall p :: p in done ==> ScanShape(j.root, j.Where(p))
    requires forall p, r :: p in done && r in p.manifest.needs ==> Plain(r) && ScanShape(j.root, j.At(r))
    ensures Loads(j.root, j.Placed(done), {}, j.Where(done[i]))
  {
    hide Job.Placed, Dir, Plain, Valid, Accepted, ScanShape, Job.Sorted, Mounted, NoDup;
    assert done[i] in done;
    j.BringsItself(done, i);
    NamedAndAccepted(j, done, done[i].manifest.name);
    SameAtItsPlace(j, done, i);
    forall r | r in done[i].manifest.needs
      ensures r in Mounted(j.root, j.Placed(done), {})
    {
      NeedIsProvided(j, done, i, r);
      NamedAndAccepted(j, done, r);
      AcceptedIsMounted(j.root, j.Placed(done), j.At(r));
    }
  }

  lemma AcceptedIsMounted(root: Path, disk: Disk, d: Path)
    requires Accepted(root, disk, d)
    ensures disk[d].value.name in Mounted(root, disk, {})
  {
  }

  lemma NeedIsProvided(j: Job, done: seq<Package>, i: nat, r: Name)
    requires Honest(j.world) && j.Sorted(done) && i < |done| && r in done[i].manifest.needs
    ensures j.At(r) in j.first || j.Brought(done, j.At(r))
  {
    hide Dir, Valid, Job.Holds;
    assert j.SortedAt(done, i) && done[..i] <= done;
    j.StaysProvided(done[..i], done, r);
    if j.Answered(done, r) {
      AnsweredIsBrought(j, done, r);
    }
  }

  /** A plain name of a scanned shape that was on disk or came with something is accepted under it. */
  lemma NamedAndAccepted(j: Job, done: seq<Package>, r: Name)
    requires j.Sorted(done)
    requires forall d :: d in j.first ==> Accepted(j.root, j.first, d)
    requires forall p :: p in done ==> ScanShape(j.root, j.Where(p))
    requires ScanShape(j.root, j.At(r)) && (Plain(r) || exists p :: p in done && p.manifest.name == r)
    requires j.At(r) in j.first || j.Brought(done, j.At(r))
    ensures Accepted(j.root, j.Placed(done), j.At(r)) && j.Placed(done)[j.At(r)].value.name == r
  {
    hide Job.Placed, Dir, Plain, Valid, Job.Provided;
    var d := j.At(r);
    if !Plain(r) {
      var p :| p in done && p.manifest.name == r;
      var k :| 0 <= k < |done| && done[k] == p;
      assert j.SortedAt(done, k);
      ValidIsPlain(p.manifest);
    }
    PlainNameAt(j.root, r);
    ScannedShows(j, done, d);
    var last := j.LastOver(done, d);
    if last.Some? {
      var p := done[last.value];
      assert j.SortedAt(done, last.value);
      LandedIsAcceptedIff(j.root, j.Placed(done), p.manifest);
    } else {
      forall k | 0 <= k < |done|
        ensures !j.Holds(done[k], d)
      {
        assert done[k] in done;
      }
    }
  }

  lemma SameAtItsPlace(j: Job, done: seq<Package>, i: nat)
    requires j.Sorted(done) && NoDup(Names(done)) && i < |done|
    requires forall p :: p in done ==> ScanShape(j.root, j.Where(p))
    ensures Look(j.Placed(done), j.Where(done[i])) == Some(Some(done[i].manifest))
  {
    hide Job.Placed, Dir, Plain, Valid, Job.Provided, ScanShape;
    var d := j.Where(done[i]);
    assert done[i] in done;
    ScannedShows(j, done, d);
    j.LastOverIs(done, d);
    var k := j.LastOver(done, d).value;
    assert j.SortedAt(done, i) && j.SortedAt(done, k);
    ValidIsPlain(done[i].manifest);
    ValidIsPlain(done[k].manifest);
    PlainInjective(j.root, done[i].manifest.name, done[k].manifest.name);
    assert Names(done)[i] == Names(done)[k];
  }

  // ---- loops

  /** A package that landed above `d` has it further down in it. */
  ghost predicate Carried(j: Job, done: seq<Package>, d: Path) {
    exists k {:trigger j.Holds(done[k], d)} :: 0 <= k < |done| && j.Holds(done[k], d) && j.Where(done[k]) < d
  }

  /** A package on a loop of missing requirements never lands: the one after it would have had to land
      first, and so on around. */
  lemma LoopNeverLands(j: Job, done: seq<Package>, names: seq<Name>)
    requires Honest(j.world) && j.Sorted(done) && j.Known(done) && j.Loop(j.first, names)
    requires forall n :: n in names ==> !Carried(j, done, j.At(n))
    ensures forall n :: n in names ==> n !in Names(done)
  {
    forall n | n in names
      ensures n !in Names(done)
    {
      if n in Names(done) {
        var i :| 0 <= i < |names| && names[i] == n;
        var k :| 0 <= k < |done| && Names(done)[k] == n;
        LoopDescends(j, done, names, i, k);
      }
    }
  }

  lemma {:induction false} LoopDescends(j: Job, done: seq<Package>, names: seq<Name>, i: nat, k: nat)
    requires Honest(j.world) && j.Sorted(done) && j.Known(done) && j.Loop(j.first, names)
    requires forall n :: n in names ==> !Carried(j, done, j.At(n))
    requires i < |names| && k < |done| && done[k].manifest.name == names[i]
    ensures false
    decreases k
  {
    hide Dir, Valid, Plain, Job.Holds;
    assert j.LoopStep(j.first, names, i) && j.SortedAt(done, k);
    var next := if i + 1 < |names| then i + 1 else 0;
    var before := done[..k];
    assert names[next] in names;
    if j.Answered(before, names[next]) {
      AnsweredIsBrought(j, before, names[next]);
    }
    var l :| 0 <= l < |before| && j.Holds(before[l], j.At(names[next]));
    assert done[l] == before[l];
    HeldAtItsPlace(j, done[l], names[next]);
    LoopDescends(j, done, names, next, l);
  }

  lemma HeldAtItsPlace(j: Job, p: Package, r: Name)
    requires Valid(p.manifest) && Plain(r) && j.Holds(p, j.At(r)) && !(j.Where(p) < j.At(r))
    ensures p.manifest.name == r
  {
    hide Dir, Valid, Plain;
    ValidIsPlain(p.manifest);
    assert j.Where(p) == j.At(r);
    PlainInjective(j.root, p.manifest.name, r);
  }

  // ---- sequences of names

  lemma InsertInTheMiddle(a: seq<Name>, x: Name, b: seq<Name>)
    requires NoDup(a + b) && x !in a && x !in b
    ensures NoDup(a + [x] + b)
  {
    var s, u := a + b, a + [x] + b;
    forall i, j | 0 <= i < j < |u|
      ensures u[i] != u[j]
    {
      var i', j' := if i < |a| then i else i - 1, if j < |a| then j else j - 1;
      if i != |a| { assert u[i] == s[i']; }
      if j != |a| { assert u[j] == s[j']; }
    }
  }

  lemma MoveToTheEnd(a: seq<Name>, x: Name, b: seq<Name>)
    requires NoDup(a + [x] + b)
    ensures NoDup(a + (b + [x])) && NoDup(b + [x])
    ensures Elements(a + [x]) + Elements(b) == Elements(a) + Elements(b + [x])
  {
    var s, u := a + [x] + b, a + (b + [x]);
    forall i, j | 0 <= i < j < |u|
      ensures u[i] != u[j]
    {
      var i' := if i < |a| then i else i + 1;
      var j' := if j < |a| then j else if j < |u| - 1 then j + 1 else |a|;
      assert u[i] == s[i'] && u[j] == s[j'];
    }
    assert forall i :: 0 <= i < |b + [x]| ==> (b + [x])[i] == u[|a| + i];
  }
}
