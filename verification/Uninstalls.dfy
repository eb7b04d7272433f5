/** What an uninstall takes with it, and what it breaks (`tabit-ext-install/src/lib.rs`, `uninstall`). */
module Uninstalls {
  import opened Wrappers
  import opened Sequences
  import opened Manifests
  import opened Installs

  /** Some package the scan still accepts required something that was mounted and no longer is. */
  ghost predicate BreaksSomeone(root: Path, disk: Disk, after: Disk) {
    exists p, r :: Lost(root, disk, after, p, r)
  }

  ghost predicate Lost(root: Path, disk: Disk, after: Disk, p: Path, r: Name) {
    Accepted(root, after, p) && r in after[p].value.needs && r in Mounted(root, disk, {})
      && r !in Mounted(root, after, {})
  }

  ghost predicate RealDisk(disk: Disk) {
    forall d :: d in disk ==> Real(d)
  }

  /** An accepted package at `d` goes with the directory `gone`, and one that stays requires it. */
  ghost predicate Missed(root: Path, disk: Disk, gone: Path, d: Path) {
    Accepted(root, disk, d) && gone <= d
    && exists p :: Accepted(root, disk, p) && !(gone <= p) && disk[d].value.name in disk[p].value.needs
  }

  /** What removing a directory breaks is what is required of it from outside. */
  lemma RemovalBreaksIff(root: Path, disk: Disk, gone: Path)
    requires RealDisk(disk)
    ensures BreaksSomeone(root, disk, Without(disk, gone)) <==> exists d :: Missed(root, disk, gone, d)
  {
    hide ScanShape, NameAt;
    var after := Without(disk, gone);
    if BreaksSomeone(root, disk, after) {
      var p, r :| Lost(root, disk, after, p, r);
      var d :| d in disk && Accepted(root, disk, d) && disk[d].value.name == r;
      assert Accepted(root, disk, p);
      assert !(gone <= d) ==> Accepted(root, after, d);
      assert Missed(root, disk, gone, d);
    }
    if d :| Missed(root, disk, gone, d) {
      var p :| Accepted(root, disk, p) && !(gone <= p) && disk[d].value.name in disk[p].value.needs;
      var r := disk[d].value.name;
      forall e | Accepted(root, after, e) && after[e].value.name == r
        ensures e == d
      {
        NameAtInjective(root, d, e);
      }
      assert Accepted(root, after, p);
      assert Lost(root, disk, after, p, r);
    }
  }

  /** An uninstall that goes through breaks a package exactly when that one requires something below the
      directory removed, or the directory itself where the name is not the package's own. */
  lemma UninstallBreaksIff(root: Path, disk: Disk, name: Name)
    requires RealDisk(disk) && UninstallError(root, disk, name).None?
    ensures var gone := Dir(root, name);
      BreaksSomeone(root, disk, Without(disk, gone)) <==>
        exists d :: Missed(root, disk, gone, d) && (gone < d || disk[d].value.name != name)
  {
    hide ScanShape, NameAt, Dir, Real;
    var gone := Dir(root, name);
    RemovalBreaksIff(root, disk, gone);
    forall d | Missed(root, disk, gone, d)
      ensures disk[d].value.name != name
    {
      var p :| Accepted(root, disk, p) && !(gone <= p) && disk[d].value.name in disk[p].value.needs;
      assert p in disk && disk[p].value.name !in Dependents(root, disk, name);
    }
  }

  /** "Refuses while direct dependents remain" holds of a name spelled the way packages are, with no
      other package below it. */
  lemma UninstallKeepsRequirements(root: Path, disk: Disk, name: Name)
    requires RealDisk(disk) && UninstallError(root, disk, name).None?
    requires Plain(name) && forall d :: Accepted(root, disk, d) ==> !(Dir(root, name) < d)
    ensures !BreaksSomeone(root, disk, Without(disk, Dir(root, name)))
  {
    var gone := Dir(root, name);
    UninstallBreaksIff(root, disk, name);
    PlainDir(root, name);
    JoinSplit(name, '/');
    hide Dir, Plain, Real;
    forall d | Missed(root, disk, gone, d)
      ensures disk[d].value.name == name
    {
      assert d == gone;
      assert d[|root|..] == Split(name, '/');
    }
  }

  // ---- what an uninstall answers

  /** The scan accepts the package at `d`: a directory below the root that is named like it and is no scope,
      or one inside a scope, named by both; its manifest parses, and its entry is not declared empty. */
  ghost predicate Scans(root: Path, disk: Disk, d: Path, m: Manifest) {
    && d in disk && disk[d] == Some(m) && !(m.entry.Some? && |m.entry.value| == 0)
    && ((exists part :: d == root + [part] && !("@" <= part) && m.name == part)
        || (exists scope, leaf :: d == root + [scope, leaf] && "@" <= scope && m.name == scope + "/" + leaf))
  }

  lemma JoinFew(a: string, b: string)
    ensures Join([a], "/") == a && Join([a, b], "/") == a + "/" + b
  {
    assert [a, b][1..] == [b];
  }

  lemma ShapeIs(root: Path, below: Path)
    ensures ScanShape(root, root + below) <==>
      (|below| == 1 && !("@" <= below[0])) || (|below| == 2 && "@" <= below[0])
    ensures (root + below)[|root|..] == below
  {
    assert |below| > 0 ==> (root + below)[|root|] == below[0];
  }

  lemma ScanAcceptsIff(root: Path, disk: Disk, d: Path)
    ensures Accepted(root, disk, d) <==> exists m :: Scans(root, disk, d, m)
  {
    hide ScanShape, Join;
    if Accepted(root, disk, d) {
      ShapeReaches(root, d);
      var below := d[|root|..];
      ShapeIs(root, below);
      JoinFew(below[0], below[|below| - 1]);
      assert below == if |below| == 1 then [below[0]] else [below[0], below[|below| - 1]];
      assert Scans(root, disk, d, disk[d].value);
    }
    if m :| Scans(root, disk, d, m) {
      if part :| d == root + [part] && !("@" <= part) && m.name == part {
        ShapeIs(root, [part]);
        JoinFew(part, part);
      } else {
        var scope, leaf :| d == root + [scope, leaf] && "@" <= scope && m.name == scope + "/" + leaf;
        ShapeIs(root, [scope, leaf]);
        JoinFew(scope, leaf);
      }
    }
  }

  lemma ShapeReaches(root: Path, d: Path)
    requires ScanShape(root, d)
    ensures |root| <= |d| && d == root + d[|root|..]
  {
  }

  /** A package of that name that the scan accepts requires exactly this name. */
  ghost predicate RequiredBy(root: Path, disk: Disk, dependent: Name, name: Name) {
    exists d, m :: Scans(root, disk, d, m) && m.name == dependent && name in m.needs
  }

  lemma DependentsExactly(root: Path, disk: Disk, name: Name)
    ensures forall n :: n in Dependents(root, disk, name) <==> RequiredBy(root, disk, n, name)
  {
    hide Accepted;
    forall d
      ensures Accepted(root, disk, d) <==> exists m :: Scans(root, disk, d, m)
    {
      ScanAcceptsIff(root, disk, d);
    }
  }

  /** An uninstall finds nothing where no manifest lies; it is refused exactly while some accepted package
      requires that name, and says which; else the directory goes with all below it, and nothing else. */
  lemma UninstallAnswers(root: Path, disk: Disk, name: Name)
    ensures var e := UninstallError(root, disk, name);
      if Dir(root, name) !in disk then e == Some(NotInstalled)
      else if exists n :: RequiredBy(root, disk, n, name) then
        e.Some? && e.value.StillRequired? && forall n :: n in e.value.dependents <==> RequiredBy(root, disk, n, name)
      else e == None
    ensures forall d :: d in Without(disk, Dir(root, name)) <==> d in disk && !(Dir(root, name) <= d)
    ensures forall d :: d in Without(disk, Dir(root, name)) ==> Without(disk, Dir(root, name))[d] == disk[d]
  {
    hide Dir, RequiredBy, Dependents;
    DependentsExactly(root, disk, name);
  }

  // ---- each failing family is inhabited

  /** A scoped package, one that requires it, and one named like the scope. */
  function Scoped(root: Path): Disk {
    map[root + ["@s", "p"] := Some(Manifest("@s/p", None, [])),
        root + ["top"] := Some(Manifest("top", None, ["@s/p"])),
        root + ["@s"] := Some(Manifest("@s", None, []))]
  }

  lemma ScopedIsAccepted(root: Path)
    ensures Accepted(root, Scoped(root), root + ["@s", "p"]) && Accepted(root, Scoped(root), root + ["top"])
    ensures forall d :: Accepted(root, Scoped(root), d) && Scoped(root)[d].value.needs != [] ==> d == root + ["top"]
  {
    var leaf, top := root + ["@s", "p"], root + ["top"];
    assert leaf[|root|..] == ["@s", "p"] && top[|root|..] == ["top"];
    assert leaf[|root|] == "@s" && top[|root|] == "top";
    assert Join(["@s", "p"], "/") == "@s" + "/" + Join(["p"], "/");
  }

  /** Any name that leads to the scoped package or above it, and is not the package's own, takes it away
      from the one that requires it. */
  lemma OtherNamesBreak(root: Path, name: Name)
    requires Real(root) && name != "@s/p" && (Dir(root, name) == root + ["@s", "p"] || Dir(root, name) == root + ["@s"])
    ensures var disk := Scoped(root);
      UninstallError(root, disk, name).None? && BreaksSomeone(root, disk, Without(disk, Dir(root, name)))
  {
    var disk, gone, leaf, top := Scoped(root), Dir(root, name), root + ["@s", "p"], root + ["top"];
    ScopedIsAccepted(root);
    hide Dir, Accepted;
    assert Dependents(root, disk, name) == {};
    assert gone <= leaf && !(gone <= top) by {
      assert top[|root|] == "top" && gone[|root|] == "@s";
    }
    assert RealDisk(disk);
    assert Missed(root, disk, gone, leaf);
    RemovalBreaksIff(root, disk, gone);
  }

  /** Such names: a backslash for the slash, a detour, an empty part, a trailing slash, and the scope's. */
  lemma OtherNames(root: Path)
    ensures Dir(root, "@s\\p") == Dir(root, "./@s/p") == Dir(root, "@s//p") == Dir(root, "@s/p/") == root + ["@s", "p"]
    ensures Dir(root, "@s") == root + ["@s"]
  {
    hide Split, Follow, Dir;
    BackslashMeets(root, "@s\\p");
    assert Slashes("@s\\p") == "@s/p";
    DetoursMeet(root, "@s/p", "");
    DetoursMeet(root, "@s", "p");
    assert "./" + "@s/p" == "./@s/p" && "@s/p" + "/" == "@s/p/" && "@s" + "//" + "p" == "@s//p";
    assert "@s" + "/" + "p" == "@s/p";
    LeafPlace(root);
  }

  lemma LeafPlace(root: Path)
    ensures Dir(root, "@s/p") == root + ["@s", "p"] && Dir(root, "@s") == root + ["@s"]
  {
    SplitPlain("@s", '/');
    SplitPlain("p", '/');
    SplitConcat("@s", "p", '/');
    assert "@s" + ['/'] + "p" == "@s/p";
    hide Split, Dir;
    PlainDir(root, "@s");
    PlainDir(root, "@s/p");
  }
}
