/** When the installer refuses a package, said of its name as text and of its entry, and what one install
    does with a package that asks for nothing that is missing. */
module InstallChecks {
  import opened Wrappers
  import opened Manifests
  import opened Installs

  /** The text from `a` to `b` is one of the parts between slashes. */
  predicate PartAt(text: string, a: nat, b: nat) {
    && a <= b <= |text| && '/' !in text[a..b]
    && (a == 0 || text[a - 1] == '/') && (b == |text| || text[b] == '/')
  }

  ghost predicate HasPart(text: string, part: string) {
    exists a: nat, b: nat :: PartAt(text, a, b) && text[a..b] == part
  }

  /** No directory below the root may be spelled like this. */
  predicate BadPart(part: string) {
    part == "" || part == "." || part == ".." || '\\' in part || ':' in part
  }

  /** What the installer refuses: no name, a name with a bad part, an entry declared without a word. */
  ghost predicate Bad(m: Manifest) {
    || m.name == ""
    || (exists part :: HasPart(m.name, part) && BadPart(part))
    || (m.entry.Some? && |m.entry.value| == 0)
  }

  lemma {:induction false} FirstSlash(text: string) returns (before: string, after: string)
    requires '/' in text
    ensures '/' !in before && text == before + ['/'] + after
  {
    if text[0] == '/' {
      before, after := "", text[1..];
    } else {
      before, after := FirstSlash(text[1..]);
      assert text == [text[0]] + text[1..];
      before := [text[0]] + before;
    }
  }

  lemma SlashesStay(text: string, k: nat, b: nat)
    requires k < |text| && text[k] == '/' && b <= |text|
    ensures k < b ==> '/' in text[0..b]
  {
    if k < b {
      assert text[0..b][k] == '/';
    }
  }

  lemma PartsOfTwo(before: string, after: string, part: string)
    requires '/' !in before
    ensures HasPart(before + ['/'] + after, part) ==> part == before || HasPart(after, part)
  {
    var text, n := before + ['/'] + after, |before| + 1;
    if a: nat, b: nat :| PartAt(text, a, b) && text[a..b] == part {
      if a == 0 {
        SlashesStay(text, |before|, b);
        assert b == |before| ==> text[0..b] == before;
      } else {
        assert a >= n;
        assert text[a..b] == after[a - n..b - n];
        assert PartAt(after, a - n, b - n);
      }
    }
  }

  lemma TwoHaveParts(before: string, after: string, part: string)
    requires '/' !in before && (part == before || HasPart(after, part))
    ensures HasPart(before + ['/'] + after, part)
  {
    var text, n := before + ['/'] + after, |before| + 1;
    if part == before {
      assert text[0..|before|] == before;
      assert PartAt(text, 0, |before|);
    } else {
      var a: nat, b: nat :| PartAt(after, a, b) && after[a..b] == part;
      assert text[a + n..b + n] == after[a..b];
      assert PartAt(text, a + n, b + n);
    }
  }

  /** Splitting a text yields its parts. */
  lemma {:induction false} SplitYieldsParts(text: string, part: string)
    ensures part in Split(text, '/') <==> HasPart(text, part)
    decreases |text|
  {
    if '/' in text {
      var before, after := FirstSlash(text);
      SplitYieldsParts(after, part);
      PartsOfTwo(before, after, part);
      if part == before || HasPart(after, part) {
        TwoHaveParts(before, after, part);
      }
      SplitPlain(before, '/');
      SplitConcat(before, after, '/');
    } else {
      SplitPlain(text, '/');
      assert text[0..|text|] == text;
      assert PartAt(text, 0, |text|);
    }
  }

  /** The check lets through what is not bad. */
  lemma ValidIff(m: Manifest)
    ensures Valid(m) <==> !Bad(m)
  {
    hide Split, HasPart;
    var parts := Split(m.name, '/');
    forall part
      ensures part in parts <==> HasPart(m.name, part)
    {
      SplitYieldsParts(m.name, part);
    }
    assert forall part :: ValidPart(part) <==> !BadPart(part);
    if part :| HasPart(m.name, part) && BadPart(part) {
      var i :| 0 <= i < |parts| && parts[i] == part;
    }
    if i :| 0 <= i < |parts| && !ValidPart(parts[i]) {
      assert HasPart(m.name, parts[i]);
    }
  }

  /** Nothing usable was resolved: no manifest that parses, or a bad one. */
  ghost predicate Unusable(world: World, source: Source) {
    source in world && (world[source].None? || Bad(world[source].value.manifest))
  }

  /** The recursion refuses a source, before it touches anything, exactly when what resolves is unusable. */
  lemma RefusedIff(root: Path, world: World, source: Source, s: State)
    ensures Recursion(root, world, source, s) == Outcome(Some(Refused), s) <==> Unusable(world, source)
    ensures source !in world ==> Recursion(root, world, source, s) == Outcome(Some(Unresolved), s)
  {
    hide Valid, Bad, Pulling, Dir, Land, ThroughAFile;
    if source in world && world[source].Some? {
      var m := world[source].value.manifest;
      ValidIff(m);
      if Valid(m) && m.name !in s.visited {
        var pulled := Pulling(root, world, m.needs, s.(visited := s.visited + {m.name}));
        assert m.name in Recursion(root, world, source, s).state.visited;
      }
    }
  }

  /** So of a whole install. */
  lemma InstallRefusesIff(root: Path, world: World, source: Source, disk: Disk)
    ensures var o := Installing(root, world, source, disk);
      && (Unusable(world, source) ==> o == Outcome(Some(Refused), State(disk, [], {})))
      && (source !in world ==> o == Outcome(Some(Unresolved), State(disk, [], {})))
      && (source in world && !Unusable(world, source) ==> world[source].value.manifest.name in o.state.visited)
  {
    hide Bad, Valid, Pulling, Dir, Land, ThroughAFile;
    RefusedIff(root, world, source, State(disk, [], {}));
    if source in world && world[source].Some? {
      ValidIff(world[source].value.manifest);
    }
  }

  /** Something was refused: the source itself, or what a missing requirement resolves to. */
  ghost predicate SomeUnusable(world: World) {
    exists source :: Unusable(world, source)
  }

  /** No package is refused where every source that resolves yields a usable one. */
  lemma RecursionRefuses(root: Path, world: World, source: Source, s: State)
    ensures Recursion(root, world, source, s).error == Some(Refused) ==>
      Unusable(world, source) || exists r :: Unusable(world, Latest(r))
    decreases AllNames(world) - s.visited, 1, 0
  {
    hide Valid, Bad, Dir, Land, ThroughAFile;
    if source in world && world[source].Some? {
      var m := world[source].value.manifest;
      ValidIff(m);
      if Valid(m) && m.name !in s.visited {
        assert m.name in AllNames(world);
        PullingRefuses(root, world, m.needs, s.(visited := s.visited + {m.name}));
      }
    }
  }

  lemma PullingRefuses(root: Path, world: World, needs: seq<Name>, s: State)
    ensures Pulling(root, world, needs, s).error == Some(Refused) ==> exists r :: Unusable(world, Latest(r))
    decreases AllNames(world) - s.visited, 2, |needs|
  {
    hide Valid, Bad, Dir, Land, ThroughAFile, Recursion, Unusable;
    if needs != [] {
      if Dir(root, needs[0]) in s.disk {
        PullingRefuses(root, world, needs[1..], s);
      } else {
        RecursionRefuses(root, world, Latest(needs[0]), s);
        var o := Recursion(root, world, Latest(needs[0]), s);
        if o.error.None? {
          PullingRefuses(root, world, needs[1..], o.state);
        }
      }
    }
  }

  lemma {:induction false} AllPresent(root: Path, world: World, needs: seq<Name>, s: State)
    requires forall r :: r in needs ==> Dir(root, r) in s.disk
    ensures Pulling(root, world, needs, s) == Outcome(None, s)
    decreases |needs|
  {
    hide Dir, Recursion;
    if needs != [] {
      AllPresent(root, world, needs[1..], s);
    }
  }

  /** `place` shows the package and all it holds, and only that; elsewhere nothing changed, but where the
      place took that of a manifest file. */
  ghost predicate LandedAt(before: Disk, after: Disk, place: Path, package: Package) {
    && place in after && after[place] == Some(package.manifest)
    && (forall d :: d != [] ==> (place + d in after <==> d in package.others))
    && (forall d :: d != [] && d in package.others ==> after[place + d] == package.others[d])
    && (forall d :: !(place <= d) ==> (d in after <==> d in before && place != d + ["tabit.json"]))
    && (forall d :: !(place <= d) && d in after ==> after[d] == before[d])
  }

  lemma LandsThere(disk: Disk, place: Path, package: Package)
    ensures LandedAt(disk, Land(disk, place, package.Tree()), place, package)
  {
    var after := Land(disk, place, package.Tree());
    forall d
      ensures place + d in after <==> d in package.Tree()
      ensures place + d in after ==> after[place + d] == package.Tree()[d]
    {
      assert place <= place + d && (place + d)[|place|..] == d;
    }
    assert place + [] == place;
  }

  /** What an install without missing requirements does, in each case: a source that does not resolve and
      an unusable package change nothing; a place that leads through another package's manifest file is
      blocked; else the package lands alone. */
  lemma InstallAlone(root: Path, world: World, source: Source, disk: Disk)
    requires source in world && world[source].Some? ==>
      forall r :: r in world[source].value.manifest.needs ==> Dir(root, r) in disk
    ensures var o := Installing(root, world, source, disk);
      if source !in world then o.error == Some(Unresolved) && o.state.disk == disk && o.state.done == []
      else if Unusable(world, source) then o.error == Some(Refused) && o.state.disk == disk && o.state.done == []
      else
        var package := world[source].value;
        var place := Dir(root, package.manifest.name);
        if exists d :: d in disk && root <= d && d + ["tabit.json"] < place then
          o.error == Some(Blocked(package.manifest.name)) && o.state.disk == disk && o.state.done == []
        else
          o.error == None && o.state.done == [package] && LandedAt(disk, o.state.disk, place, package)
  {
    hide Bad, Dir, Valid, Land, LandedAt;
    RefusedIff(root, world, source, State(disk, [], {}));
    if source in world && !Unusable(world, source) {
      var package := world[source].value;
      ValidIff(package.manifest);
      var name := package.manifest.name;
      var s := State(disk, [], {name});
      assert {} + {name} == {name};
      AllPresent(root, world, package.manifest.needs, s);
      LandsThere(disk, Dir(root, name), package);
    }
  }

  /** A package with a process lands like any other. */
  lemma EntryInstalls(root: Path)
    ensures var p := Package(Manifest("top", Some(["main.js"]), []), map[]);
      var o := Installing(root, map[Local("x") := Some(p)], Local("x"), map[]);
      o.error == None && o.state.done == [p]
  {
    var p := Package(Manifest("top", Some(["main.js"]), []), map[]);
    var world := map[Local("x") := Some(p)];
    SplitPlain("top", '/');
    ValidIff(p.manifest);
    assert Valid(p.manifest);
    hide Valid, Bad, Dir, LandedAt, Installing, Split;
    InstallAlone(root, world, Local("x"), map[]);
  }
}
