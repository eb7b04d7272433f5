/** What can be told of an install beforehand, from the tree it starts from and the packages it may meet:
    nothing is lost, requirements are met, a reported cycle is one, and no loop lands. */
module InstallSafety {
  import opened Wrappers
  import opened Sequences
  import opened Manifests
  import opened Installs
  import opened InstallLaws
  import opened InstallPlans

  /** The names under which packages can land. */
  ghost function ValidNames(world: World): set<Name> {
    set source | source in world && world[source].Some? && Valid(world[source].value.manifest) ::
      world[source].value.manifest.name
  }

  /** No package can come down over what is on disk or over another, but onto its own place. */
  ghost predicate Undisturbed(j: Job) {
    && (forall a, d :: a in ValidNames(j.world) && d in j.first && Over(j.At(a), d) ==> j.At(a) == d)
    && (forall a, b ::
          a in ValidNames(j.world) && b in ValidNames(j.world) && Over(j.At(a), j.At(b)) ==> j.At(a) == j.At(b))
  }

  /** What is on disk and every package that can land has one of the two shapes the scan looks for. */
  ghost predicate Scanned(j: Job) {
    && (forall d :: d in j.first ==> ScanShape(j.root, d))
    && (forall a :: a in ValidNames(j.world) ==> ScanShape(j.root, j.At(a)))
  }

  lemma ScannedIsUndisturbed(j: Job)
    requires Scanned(j)
    ensures Undisturbed(j)
  {
    hide Dir, ValidNames;
    forall a, d | a in ValidNames(j.world) && ScanShape(j.root, d) && Over(j.At(a), d)
      ensures j.At(a) == d
    {
      ShapesApart(j.root, j.At(a), d);
    }
  }

  lemma ShapesApart(root: Path, a: Path, d: Path)
    requires ScanShape(root, a) && ScanShape(root, d) && Over(a, d)
    ensures a == d
  {
  }

  ghost predicate Landable(j: Job, done: seq<Package>) {
    && NoDup(Names(done)) && j.Sorted(done)
    && forall p :: p in done ==> p.manifest.name in ValidNames(j.world)
  }

  lemma LandedIsLandable(j: Job, source: Source)
    requires Honest(j.world) && (source in j.world && j.world[source].Some? ==> j.world[source] == Some(j.primary))
    ensures Landable(j, Installing(j.root, j.world, source, j.first).state.done)
  {
    InstallKeepsOrder(j, source);
    var done := Installing(j.root, j.world, source, j.first).state.done;
    if source in j.world && j.world[source].Some? {
      hide Valid, Installs.Recursion;
      AllFromWorld(j, source, done);
      forall p | p in done
        ensures p.manifest.name in ValidNames(j.world)
      {
        var k :| 0 <= k < |done| && done[k] == p;
        assert Valid(p.manifest);
        var from :| from in j.world && j.world[from] == Some(p);
      }
    }
  }

  /** Nothing undisturbed is ever lost. */
  lemma Kept(j: Job, done: seq<Package>, d: Path)
    requires Undisturbed(j) && Landable(j, done) && (d in j.first || j.Brought(done, d))
    ensures d in j.Placed(done)
  {
    hide Job.Placed, Dir, Valid, ValidNames, Job.Provided;
    j.OnDiskIff(done, d);
    j.LastOverIs(done, d);
    var last := j.LastOver(done, d);
    if last.Some? {
      var top := done[last.value];
      assert top in done;
      j.BringsItself(done, last.value);
      if d !in j.first {
        var k :| 0 <= k < |done| && j.Holds(done[k], d);
        assert done[k] in done;
        SamePlace(j, done, last.value, k, d);
      }
    }
  }

  lemma ReachDown(a: Path, b: Path, d: Path)
    requires Over(a, d) && b <= d
    ensures Over(a, b) || Over(b, a)
  {
    if a <= d && |a| <= |b| {
      assert a == d[..|a|] && b == d[..|b|];
    }
  }

  /** Two landed packages that both reach down to `d` are one. */
  lemma SamePlace(j: Job, done: seq<Package>, i: nat, k: nat, d: Path)
    requires Undisturbed(j) && Landable(j, done) && i < |done| && k < |done|
    requires Over(j.Where(done[i]), d) && j.Where(done[k]) <= d
    ensures i == k
  {
    hide Dir, Valid, ValidNames, Job.Provided;
    var a, b := j.Where(done[i]), j.Where(done[k]);
    assert done[i] in done && done[k] in done;
    ReachDown(a, b, d);
    assert a == b;
    assert j.SortedAt(done, i) && j.SortedAt(done, k);
    ValidIsPlain(done[i].manifest);
    ValidIsPlain(done[k].manifest);
    PlainInjective(j.root, done[i].manifest.name, done[k].manifest.name);
    assert Names(done)[i] == Names(done)[k];
  }

  /** A loop of what nothing has come down over is one of what was on disk. */
  lemma LoopOfFirst(j: Job, done: seq<Package>, names: seq<Name>)
    requires Undisturbed(j) && Landable(j, done) && j.Loop(j.Standing(done), names) && j.NoneIn(names, done)
    ensures j.Loop(j.first, names)
  {
    hide Dir, Valid, ValidNames, Job.Provided, Plain;
    forall i | 0 <= i < |names|
      ensures j.LoopStep(j.first, names, i)
    {
      assert j.LoopStep(j.Standing(done), names, i);
      var next := names[if i + 1 < |names| then i + 1 else 0];
      assert next in names;
      if j.At(next) in j.first {
        var k :| 0 <= k < |done| && Over(j.Where(done[k]), j.At(next));
        assert done[k] in done && Names(done)[k] in Names(done);
        assert j.SortedAt(done, k);
        ValidIsPlain(done[k].manifest);
        PlainInjective(j.root, done[k].manifest.name, next);
        assert false;
      }
    }
  }

  /** With an honest registry and nothing that can come down over anything else, an install, whether it goes
      through or fails, loses nothing that was on disk, leaves everything that landed in its place with all
      it requires, and reports a cycle only where there is one. */
  lemma InstallIsSafe(j: Job, source: Source)
    requires Honest(j.world) && Undisturbed(j)
    requires source in j.world && j.world[source].Some? ==> j.world[source] == Some(j.primary)
    ensures var o := Installing(j.root, j.world, source, j.first); var done := o.state.done;
      && j.first.Keys <= o.state.disk.Keys
      && (forall p :: p in done ==> j.Where(p) in o.state.disk)
      && (forall p, r :: p in done && r in p.manifest.needs ==> j.At(r) in o.state.disk)
      && (o.error.Some? && o.error.value.Cycle? ==>
            exists names :: j.Loop(j.first, names) && names[0] == o.error.value.name)
  {
    hide Undisturbed, Landable, Installs.Recursion, Job.Placed, Job.Loop, Dir;
    InstallKeepsOrder(j, source);
    LandedIsLandable(j, source);
    var o := Installing(j.root, j.world, source, j.first);
    var done := o.state.done;
    forall d | d in j.first || j.Brought(done, d)
      ensures d in o.state.disk
    {
      Kept(j, done, d);
    }
    forall p | p in done
      ensures j.Where(p) in o.state.disk && forall r :: r in p.manifest.needs ==> j.At(r) in o.state.disk
    {
      var k :| 0 <= k < |done| && done[k] == p;
      j.BringsItself(done, k);
      forall r | r in p.manifest.needs
        ensures j.At(r) in o.state.disk
      {
        NeedIsProvided(j, done, k, r);
      }
    }
    if o.error.Some? && o.error.value.Cycle? {
      CycleOfFirst(j, o);
    }
  }

  lemma CycleOfFirst(j: Job, o: Outcome)
    requires Honest(j.world) && Undisturbed(j) && Landable(j, o.state.done) && j.Reported(o)
    requires o.error.Some? && o.error.value.Cycle?
    requires forall p :: p in o.state.done ==> j.Where(p) in o.state.disk
    ensures exists names :: j.Loop(j.first, names) && names[0] == o.error.value.name
  {
    hide Undisturbed, Landable, Job.LoopStep, Dir;
    var n, done := o.error.value.name, o.state.done;
    forall k | 0 <= k < |done|
      ensures j.At(Names(done)[k]) in o.state.disk
    {
      assert done[k] in done;
    }
    var names :| j.Loop(j.Standing(done), names) && names[0] == n && j.NoneIn(names, done);
    LoopOfFirst(j, done, names);
  }

  // ---- loops, and what the loader makes of an install

  /** No package has one of `names` further down in it. */
  ghost predicate NoneCarries(j: Job, names: seq<Name>) {
    forall source, n :: source in j.world && j.world[source].Some? && n in names ==>
      var p := j.world[source].value;
      !(j.Where(p) < j.At(n) && j.Holds(p, j.At(n)))
  }

  /** No install lands a member of a loop of missing requirements that no package brings along. */
  lemma LoopsNeverLand(j: Job, source: Source, names: seq<Name>)
    requires Honest(j.world) && source in j.world && j.world[source] == Some(j.primary)
    requires j.Loop(j.first, names) && NoneCarries(j, names)
    ensures forall n :: n in names ==> n !in Names(Installing(j.root, j.world, source, j.first).state.done)
  {
    hide Installs.Recursion, Dir, Valid, Job.Holds, Job.Loop;
    InstallKeepsOrder(j, source);
    var done := Installing(j.root, j.world, source, j.first).state.done;
    AllFromWorld(j, source, done);
    forall k, n | 0 <= k < |done| && n in names
      ensures !(j.Holds(done[k], j.At(n)) && j.Where(done[k]) < j.At(n))
    {
      assert done[k] in done;
      var from :| from in j.world && j.world[from] == Some(done[k]);
    }
    LoopNeverLands(j, done, names);
  }

  /** On a tree of accepted packages, with an honest registry, and every package and requirement it knows
      plainly spelled and of the scanned shapes, everything an install lands is mounted by the next boot. */
  lemma InstalledLoads(j: Job, source: Source)
    requires Honest(j.world) && source in j.world && j.world[source] == Some(j.primary)
    requires forall d :: d in j.first ==> Accepted(j.root, j.first, d)
    requires forall a :: a in ValidNames(j.world) ==> ScanShape(j.root, j.At(a))
    requires forall from, r :: from in j.world && j.world[from].Some? && r in j.world[from].value.manifest.needs ==>
      Plain(r) && ScanShape(j.root, j.At(r))
    ensures var o := Installing(j.root, j.world, source, j.first);
      forall p :: p in o.state.done ==> Loads(j.root, o.state.disk, {}, j.Where(p))
  {
    hide Installs.Recursion, Dir, Valid, ScanShape, Accepted, Loads, Plain, Job.Placed;
    InstallKeepsOrder(j, source);
    LandedIsLandable(j, source);
    var done := Installing(j.root, j.world, source, j.first).state.done;
    AllFromWorld(j, source, done);
    forall p, r | p in done && r in p.manifest.needs
      ensures Plain(r) && ScanShape(j.root, j.At(r))
    {
      var from :| from in j.world && j.world[from] == Some(p);
    }
    forall p | p in done
      ensures Loads(j.root, j.Placed(done), {}, j.Where(p))
    {
      var k :| 0 <= k < |done| && done[k] == p;
      LandedLoads(j, done, k);
    }
  }
}
