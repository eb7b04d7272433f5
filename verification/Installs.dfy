/** The extension installer (`tabit-ext-install/src/lib.rs`): a recursive install of one source and
    its missing requirements. The directory tree is the truth; staging directories come and go inside
    it. What an install computes is a function on values; its laws are in module InstallLaws. */
module Installs {
  import opened Wrappers
  import opened Manifests

  datatype Source = Npm(name: Name, version: Option<string>) | Git(url: string) | Local(dir: string)

  /** A resolved package: its manifest, and the manifests further down in it by their path below it. */
  datatype Package = Package(manifest: Manifest, others: Disk) {
    function Tree(): Disk {
      others[[] := Some(manifest)]
    }
  }

  /** What resolving each source yields; nothing where its manifest is missing or does not parse.
      Sources not listed cannot be resolved. */
  type World = map<Source, Option<Package>>

  datatype Error = Unresolved | Refused | Cycle(name: Name) | Blocked(name: Name)
    | NotInstalled | StillRequired(dependents: set<Name>)

  function Latest(name: Name): Source {
    Npm(name, None)
  }

  function AllNames(world: World): set<Name> {
    set source | source in world && world[source].Some? :: world[source].value.manifest.name
  }

  function Names(packages: seq<Package>): (names: seq<Name>)
    ensures |names| == |packages|
    ensures forall i :: 0 <= i < |names| ==> names[i] == packages[i].manifest.name
  {
    seq(|packages|, i requires 0 <= i < |packages| => packages[i].manifest.name)
  }

  // ---- directory trees

  /** A directory and all below it gone. */
  function Without(disk: Disk, target: Path): Disk {
    map d | d in disk && !(target <= d) :: disk[d]
  }

  /** What lies in a directory, by the path below it. */
  function Inside(disk: Disk, target: Path): (tree: Disk)
    ensures forall d :: d in tree <==> target + d in disk
  {
    assert forall d :: target + d in disk ==> (target + d)[|target|..] == d;
    map d | d in (set e | e in disk && target <= e :: e[|target|..]) && target + d in disk :: disk[target + d]
  }

  /** `target` leads through what is a package's manifest file. */
  predicate ThroughAFile(root: Path, disk: Disk, target: Path) {
    exists d :: d in disk && root <= d && d + [MANIFEST_NAME] < target
  }

  /** What comes to lie at `target` replaces `d`: it is above `d`, or takes the place of its manifest. */
  predicate Over(target: Path, d: Path) {
    target <= d || target == d + [MANIFEST_NAME]
  }

  /** A tree moved to `target`, where the whole directory that was there has gone. */
  function Land(disk: Disk, target: Path, tree: Disk): (after: Disk)
    ensures forall d :: d in after <==> if target <= d then d[|target|..] in tree else d in disk && !Over(target, d)
    ensures forall d :: d in after ==> after[d] == if target <= d then tree[d[|target|..]] else disk[d]
  {
    var moved := set d | d in tree :: target + d;
    assert forall d :: target <= d && d[|target|..] in tree ==> target + d[|target|..] == d;
    map d | d in disk.Keys + moved && (if target <= d then d[|target|..] in tree else !Over(target, d)) ::
      if target <= d then tree[d[|target|..]] else disk[d]
  }

  // ---- the recursion on values

  /** The tree of packages, what has landed so far, and the names met so far. */
  datatype State = State(disk: Disk, done: seq<Package>, visited: set<Name>)

  datatype Outcome = Outcome(error: Option<Error>, state: State)

  function Recursion(root: Path, world: World, source: Source, s: State): (o: Outcome)
    ensures s.visited <= o.state.visited
    decreases AllNames(world) - s.visited, 1, 0
  {
    if source !in world then Outcome(Some(Unresolved), s)
    else if world[source].None? || !Valid(world[source].value.manifest) then Outcome(Some(Refused), s)
    else
      var package := world[source].value;
      var name := package.manifest.name;
      if name in s.visited then Outcome(Some(Cycle(name)), s)
      else
        assert name in AllNames(world);
        Putting(root, package, Pulling(root, world, package.manifest.needs, s.(visited := s.visited + {name})))
  }

  /** Its requirements pulled, the package is put in place. */
  function Putting(root: Path, package: Package, pulled: Outcome): (o: Outcome)
    ensures o.state.visited == pulled.state.visited
  {
    var name := package.manifest.name;
    var t := pulled.state;
    if pulled.error.Some? then pulled
    else if ThroughAFile(root, t.disk, Dir(root, name)) then Outcome(Some(Blocked(name)), t)
    else Outcome(None, State(Land(t.disk, Dir(root, name), package.Tree()), t.done + [package], t.visited))
  }

  /** The requirements in order: what is on disk is skipped, what is missing is installed. */
  function Pulling(root: Path, world: World, needs: seq<Name>, s: State): (o: Outcome)
    ensures s.visited <= o.state.visited
    decreases AllNames(world) - s.visited, 2, |needs|
  {
    if needs == [] then Outcome(None, s)
    else if Dir(root, needs[0]) in s.disk then Pulling(root, world, needs[1..], s)
    else
      var o := Recursion(root, world, Latest(needs[0]), s);
      if o.error.Some? then o else Pulling(root, world, needs[1..], o.state)
  }

  /** One whole install. */
  function Installing(root: Path, world: World, source: Source, disk: Disk): Outcome {
    Recursion(root, world, source, State(disk, [], {}))
  }

  // ---- uninstalling on values

  /** The packages the scan accepts that require exactly this name. */
  function Dependents(root: Path, disk: Disk, name: Name): set<Name> {
    set d | d in disk && Accepted(root, disk, d) && name in disk[d].value.needs :: disk[d].value.name
  }

  function UninstallError(root: Path, disk: Disk, name: Name): Option<Error> {
    if Dir(root, name) !in disk then Some(NotInstalled)
    else if Dependents(root, disk, name) != {} then Some(StillRequired(Dependents(root, disk, name)))
    else None
  }

  // ---- the program

  class Installer {
    const root: Path
    const world: World
    var disk: Disk
    var stages: map<nat, Disk>
    var counter: nat

    constructor (root: Path, world: World, disk: Disk)
      ensures this.root == root && this.world == world && this.disk == disk && stages == map[] && FreshCounter()
    {
      this.root, this.world, this.disk, stages, counter := root, world, disk, map[], 1;
    }

    /** Stage numbers are handed out in order, so the next one is unused. */
    ghost predicate FreshCounter()
      reads this`stages, this`counter
    {
      forall n :: n in stages ==> n < counter
    }

    method NextStage() returns (n: nat)
      requires FreshCounter()
      modifies this`counter
      ensures FreshCounter() && n !in stages && n < counter
    {
      n := counter;
      counter := counter + 1;
    }

    /** Move a stage into place: the directory that was there, with everything below it, is swapped
        aside and removed once the new one has landed. */
    method Place(name: Name, stage: nat) returns (ok: bool)
      requires FreshCounter() && stage in stages
      modifies this
      ensures FreshCounter()
      ensures ok <==> !ThroughAFile(root, old(disk), Dir(root, name))
      ensures disk == if ok then Land(old(disk), Dir(root, name), old(stages)[stage]) else old(disk)
      ensures stages == if ok then old(stages) - {stage} else old(stages)
    {
      hide Land, Without, ThroughAFile, Dir;
      var target := Dir(root, name);
      if ThroughAFile(root, disk, target) {
        return false;
      }
      var retired := SwapAside(target);
      LandingClears(old(disk), target, stages[stage]);
      disk := Land(disk, target, stages[stage]);
      stages := stages - {stage};
      stages := stages - {retired};
      return true;
    }

    method SwapAside(target: Path) returns (retired: nat)
      requires FreshCounter()
      modifies this
      ensures FreshCounter() && retired !in old(stages) && retired < counter && stages - {retired} == old(stages)
      ensures disk == Without(old(disk), target)
    {
      hide Without, Inside;
      retired := NextStage();
      if exists d :: d in disk && target <= d {
        stages := stages[retired := Inside(disk, target)];
      }
      disk := Without(disk, target);
    }

    lemma LandingClears(disk: Disk, target: Path, tree: Disk)
      ensures Land(Without(disk, target), target, tree) == Land(disk, target, tree)
    {
    }

    /** What has happened by the end of a call, as one value. */
    ghost function Ended(error: Option<Error>, done: seq<Package>, visited: set<Name>): Outcome
      reads this`disk
    {
      Outcome(error, State(disk, done, visited))
    }

    method InstallRecursive(source: Source, landed: seq<Name>, visited: set<Name>, ghost done: seq<Package>)
      returns (error: Option<Error>, landed': seq<Name>, visited': set<Name>, ghost done': seq<Package>)
      requires FreshCounter() && landed == Names(done)
      modifies this
      ensures FreshCounter() && stages == old(stages)
      ensures landed' == Names(done')
      ensures Ended(error, done', visited') == Recursion(root, world, source, State(old(disk), done, visited))
      decreases AllNames(world) - visited, 1, 1
    {
      var stage := NextStage();
      error, landed', visited', done' := InstallStaged(source, stage, landed, visited, done);
      if error.Some? {
        stages := stages - {stage};
      }
    }

    method InstallStaged(source: Source, stage: nat, landed: seq<Name>, visited: set<Name>, ghost done: seq<Package>)
      returns (error: Option<Error>, landed': seq<Name>, visited': set<Name>, ghost done': seq<Package>)
      requires FreshCounter() && stage !in stages && stage < counter && landed == Names(done)
      modifies this
      ensures FreshCounter() && stages - {stage} == old(stages) && (error.None? ==> stage !in stages)
      ensures landed' == Names(done')
      ensures Ended(error, done', visited') == Recursion(root, world, source, State(old(disk), done, visited))
      decreases AllNames(world) - visited, 1, 0
    {
      hide Land, Valid, Dir, ThroughAFile, Pulling, Names;
      // Resolve into the stage.
      stages := stages[stage := map[]];
      if source !in world {
        return Some(Unresolved), landed, visited, done;
      }
      if world[source].Some? {
        stages := stages[stage := world[source].value.Tree()];
      }
      // Validate.
      if [] !in stages[stage] || stages[stage][[]].None? || !Valid(stages[stage][[]].value) {
        return Some(Refused), landed, visited, done;
      }
      var manifest := stages[stage][[]].value;
      if manifest.name in visited {
        return Some(Cycle(manifest.name)), landed, visited, done;
      }
      visited' := visited + {manifest.name};
      assert manifest.name in AllNames(world);
      // Dependencies first, then this package.
      error, landed', visited', done' := PullMissing(manifest, landed, visited', done);
      if error.Some? {
        return;
      }
      var ok := Place(manifest.name, stage);
      if !ok {
        return Some(Blocked(manifest.name)), landed', visited', done';
      }
      landed' := landed' + [manifest.name];
      done' := done' + [world[source].value];
    }

    /** The requirements in order: what is on disk is skipped, what is missing is installed first. */
    method PullMissing(manifest: Manifest, landed: seq<Name>, visited: set<Name>, ghost done: seq<Package>)
      returns (error: Option<Error>, landed': seq<Name>, visited': set<Name>, ghost done': seq<Package>)
      requires FreshCounter() && landed == Names(done)
      modifies this
      ensures FreshCounter() && stages == old(stages)
      ensures landed' == Names(done')
      ensures Ended(error, done', visited') == Pulling(root, world, manifest.needs, State(old(disk), done, visited))
      decreases AllNames(world) - visited, 2
    {
      hide Dir, Recursion;
      error, landed', visited', done' := None, landed, visited, done;
      assert manifest.needs[0..] == manifest.needs;
      for i := 0 to |manifest.needs|
        invariant FreshCounter() && stages == old(stages) && error.None?
        invariant landed' == Names(done') && visited <= visited'
        invariant Pulling(root, world, manifest.needs[i..], State(disk, done', visited'))
               == Pulling(root, world, manifest.needs, State(old(disk), done, visited))
      {
        assert manifest.needs[i..][1..] == manifest.needs[i + 1..];
        var required := manifest.needs[i];
        if Dir(root, required) in disk {
          continue;
        }
        error, landed', visited', done' := InstallRecursive(Latest(required), landed', visited', done');
        if error.Some? {
          return;
        }
      }
    }

    /** Install a source and whatever it requires that is missing. `done` is what has landed when the
        method returns, whether it succeeded or not. No stage is left behind. */
    method Install(source: Source) returns (result: Result<seq<Name>, Error>, ghost done: seq<Package>)
      requires FreshCounter()
      modifies this
      ensures FreshCounter() && stages == old(stages)
      ensures var o := Installing(root, world, source, old(disk));
        && disk == o.state.disk && done == o.state.done
        && result == if o.error.Some? then Err(o.error.value) else Ok(Names(done))
    {
      var error, landed, visited;
      error, landed, visited, done := InstallRecursive(source, [], {}, []);
      result := if error.Some? then Err(error.value) else Ok(landed);
    }

    /** Remove one package with everything below it, unless a package the scan accepts requires it. */
    method Uninstall(name: Name) returns (error: Option<Error>)
      modifies this`disk
      ensures error == UninstallError(root, old(disk), name)
      ensures disk == if error.None? then Without(old(disk), Dir(root, name)) else old(disk)
    {
      var dir := Dir(root, name);
      if dir !in disk {
        return Some(NotInstalled);
      }
      var dependents := Dependents(root, disk, name);
      if dependents != {} {
        return Some(StillRequired(dependents));
      }
      disk := Without(disk, dir);
      return None;
    }
  }
}
