/** Installs that go against the installer's own words: a requirement lost in the same install, a cycle
    reported where there is none, the primary last, and names no scan ever lists. */
module InstallExamples {
  import opened Wrappers
  import opened Manifests
  import opened Installs
  import opened InstallLaws

  const NAMED_LIKE_A_SCOPE := Package(Manifest("@s", None, ["@s/p"]), map[])
  const SCOPE := Package(Manifest("@s", None, []), map[])
  const LEAF := Package(Manifest("@s/p", None, []), map[])
  const TOP := Package(Manifest("top", None, ["@s/p", "@s", "@s/p"]), map[])
  const PLAIN_TOP := Package(Manifest("top", None, ["@s/p"]), map[])

  lemma SplitNames()
    ensures Split("@s/p", '/') == ["@s", "p"] && Split("@s", '/') == ["@s"] && Split("top", '/') == ["top"]
  {
    SplitPlain("@s", '/');
    SplitPlain("p", '/');
    SplitPlain("top", '/');
    SplitConcat("@s", "p", '/');
    assert "@s" + ['/'] + "p" == "@s/p";
  }

  lemma NamesAreValid(needs: seq<Name>)
    ensures Valid(Manifest("@s", None, needs)) && Valid(Manifest("@s/p", None, needs))
      && Valid(Manifest("top", None, needs))
    ensures Plain("@s") && Plain("@s/p") && Plain("top")
  {
    SplitNames();
    hide Split;
  }

  lemma Places(root: Path)
    ensures Dir(root, "@s") == root + ["@s"] && Dir(root, "@s/p") == root + ["@s", "p"]
      && Dir(root, "top") == root + ["top"]
  {
    NamesAreValid([]);
    SplitNames();
    hide Dir, Split;
    PlainDir(root, "@s");
    PlainDir(root, "@s/p");
    PlainDir(root, "top");
  }

  /** A package without requirements that nobody has met yet lands at once. */
  lemma LandsAtOnce(root: Path, world: World, source: Source, p: Package, s: State)
    requires source in world && world[source] == Some(p) && Valid(p.manifest) && p.manifest.needs == []
    requires p.manifest.name !in s.visited && !ThroughAFile(root, s.disk, Dir(root, p.manifest.name))
    ensures Recursion(root, world, source, s) ==
      Outcome(None, State(Land(s.disk, Dir(root, p.manifest.name), p.Tree()), s.done + [p],
                          s.visited + {p.manifest.name}))
  {
    hide Dir, Valid, Land, ThroughAFile;
  }

  /** A missing requirement is installed, then the rest. */
  lemma PullsNext(root: Path, world: World, needs: seq<Name>, s: State)
    requires needs != [] && Dir(root, needs[0]) !in s.disk
    ensures var o := Recursion(root, world, Latest(needs[0]), s);
      Pulling(root, world, needs, s) == if o.error.Some? then o else Pulling(root, world, needs[1..], o.state)
  {
    hide Installs.Recursion, Dir;
  }

  lemma PullsOne(root: Path, world: World, r: Name, s: State)
    requires Dir(root, r) !in s.disk && Recursion(root, world, Latest(r), s).error.None?
    ensures Pulling(root, world, [r], s) == Recursion(root, world, Latest(r), s)
  {
    PullsNext(root, world, [r], s);
    hide Installs.Recursion, Dir;
  }

  /** A package nobody has met yet lands once its requirements have been pulled. */
  lemma Enters(root: Path, world: World, source: Source, p: Package, s: State)
    requires source in world && world[source] == Some(p) && Valid(p.manifest) && p.manifest.name !in s.visited
    ensures Recursion(root, world, source, s) ==
      Putting(root, p, Pulling(root, world, p.manifest.needs, s.(visited := s.visited + {p.manifest.name})))
  {
    hide Putting, Valid;
  }

  /** The leaf lands on an empty tree; whatever has no leaf of its own and lands on the scope wipes it. */
  lemma LeafOnDisk(root: Path)
    ensures var disk := Land(map[], root + ["@s", "p"], LEAF.Tree());
      && !ThroughAFile(root, map[], root + ["@s", "p"])
      && root + ["@s"] !in disk && !ThroughAFile(root, disk, root + ["@s"]) && !ThroughAFile(root, disk, root + ["top"])
      && forall m :: root + ["@s", "p"] !in Land(disk, root + ["@s"], Package(m, map[]).Tree())
  {
    var disk := Land(map[], root + ["@s", "p"], LEAF.Tree());
    assert forall d :: d in disk ==> |d| >= |root| + 2;
    hide Land;
    forall m
      ensures root + ["@s", "p"] !in Land(disk, root + ["@s"], Package(m, map[]).Tree())
    {
      LeafIsWiped(root, disk, Package(m, map[]).Tree());
    }
  }

  lemma LeafIsWiped(root: Path, disk: Disk, tree: Disk)
    requires ["p"] !in tree
    ensures root + ["@s", "p"] !in Land(disk, root + ["@s"], tree)
  {
    assert (root + ["@s", "p"])[|root + ["@s"]|..] == ["p"];
  }

  const NESTED: World := map[Local("x") := Some(NAMED_LIKE_A_SCOPE), Latest("@s/p") := Some(LEAF)]

  /** A package named like a scope requires a package of that scope: both land, the second over the first,
      and the requirement is gone. */
  lemma RequirementIsWiped(root: Path)
    ensures Honest(NESTED)
    ensures var o := Installing(root, NESTED, Local("x"), map[]);
      && o.error.None? && o.state.done == [LEAF, NAMED_LIKE_A_SCOPE]
      && Dir(root, "@s/p") !in o.state.disk
  {
    Places(root);
    NamesAreValid([]);
    NamesAreValid(["@s/p"]);
    LeafOnDisk(root);
    hide Dir, Valid, Split, Installs.Recursion, Installs.Pulling, Land, ThroughAFile;
    var start := State(map[], [], {});
    var s := start.(visited := {"@s"});
    Enters(root, NESTED, Local("x"), NAMED_LIKE_A_SCOPE, start);
    assert start.visited + {"@s"} == {"@s"};
    LandsAtOnce(root, NESTED, Latest("@s/p"), LEAF, s);
    var t := Recursion(root, NESTED, Latest("@s/p"), s).state;
    PullsOne(root, NESTED, "@s/p", s);
  }

  const DIAMOND: World :=
    map[Local("x") := Some(TOP), Latest("@s") := Some(SCOPE), Latest("@s/p") := Some(LEAF)]

  /** A requirement that has landed and been wiped is asked for again and refused as a cycle, where there
      is none. */
  lemma CycleIsReported(root: Path)
    ensures Installing(root, DIAMOND, Local("x"), map[]).error == Some(Cycle("@s/p"))
  {
    Places(root);
    NamesAreValid([]);
    NamesAreValid(TOP.manifest.needs);
    LeafOnDisk(root);
    hide Dir, Valid, Split, Installs.Recursion, Installs.Pulling, Land, ThroughAFile;
    var start := State(map[], [], {});
    var s := start.(visited := {"top"});
    Enters(root, DIAMOND, Local("x"), TOP, start);
    assert start.visited + {"top"} == {"top"};
    LandsAtOnce(root, DIAMOND, Latest("@s/p"), LEAF, s);
    var t := Recursion(root, DIAMOND, Latest("@s/p"), s).state;
    PullsNext(root, DIAMOND, TOP.manifest.needs, s);
    LandsAtOnce(root, DIAMOND, Latest("@s"), SCOPE, t);
    var u := Recursion(root, DIAMOND, Latest("@s"), t).state;
    PullsNext(root, DIAMOND, TOP.manifest.needs[1..], t);
    PullsNext(root, DIAMOND, TOP.manifest.needs[2..], u);
    MetAgain(root, DIAMOND, Latest("@s/p"), LEAF, u);
  }

  lemma MetAgain(root: Path, world: World, source: Source, p: Package, s: State)
    requires source in world && world[source] == Some(p) && Valid(p.manifest) && p.manifest.name in s.visited
    ensures Recursion(root, world, source, s) == Outcome(Some(Cycle(p.manifest.name)), s)
  {
    hide Valid;
  }

  lemma NoCycleIsThere(root: Path)
    ensures Honest(DIAMOND)
    ensures forall disk, names :: !Job(root, DIAMOND, map[], TOP).Loop(disk, names)
  {
    hide Plain, Dir;
    var j := Job(root, DIAMOND, map[], TOP);
    forall disk, names | names != []
      ensures !j.Loop(disk, names)
    {
      var next := if |names| > 1 then 1 else 0;
      if j.LoopStep(disk, names, 0) {
        assert names[next] in TOP.manifest.needs;
        assert j.Lookup(names[next]).value.manifest.needs == [];
        assert !j.LoopStep(disk, names, next);
      }
    }
  }

  /** Names outside the scanned shapes pass the installer's check: they land where no scan finds them. */
  lemma SomeValidNamesAreNeverListed(root: Path, needs: seq<Name>)
    ensures Valid(Manifest("a/b", None, needs)) && !ScanShape(root, Dir(root, "a/b"))
    ensures Valid(Manifest("@s", None, needs)) && !ScanShape(root, Dir(root, "@s"))
  {
    NamesAreValid(needs);
    Places(root);
    SplitPlain("a", '/');
    SplitPlain("b", '/');
    SplitConcat("a", "b", '/');
    assert "a" + ['/'] + "b" == "a/b";
    PlainDir(root, "a/b");
  }

  const ORDINARY: World := map[Local("x") := Some(PLAIN_TOP), Latest("@s/p") := Some(LEAF)]

  /** An install whose result does not start with the package asked for. */
  lemma PrimaryComesLast(root: Path)
    ensures var o := Installing(root, ORDINARY, Local("x"), map[]);
      o.error.None? && o.state.done == [LEAF, PLAIN_TOP]
  {
    Places(root);
    NamesAreValid([]);
    NamesAreValid(["@s/p"]);
    LeafOnDisk(root);
    hide Dir, Valid, Split, Installs.Recursion, Installs.Pulling, Land, ThroughAFile;
    var start := State(map[], [], {});
    var s := start.(visited := {"top"});
    Enters(root, ORDINARY, Local("x"), PLAIN_TOP, start);
    assert start.visited + {"top"} == {"top"};
    LandsAtOnce(root, ORDINARY, Latest("@s/p"), LEAF, s);
    var t := Recursion(root, ORDINARY, Latest("@s/p"), s).state;
    PullsOne(root, ORDINARY, "@s/p", s);
  }

  // ---- a loop one of whose members another package brings along

  const CARRIER := Package(Manifest("x", None, []), map[["sub"] := Some(Manifest("x/sub", None, ["u"]))])
  const SUB := Package(Manifest("x/sub", None, ["u"]), map[])
  const USER := Package(Manifest("u", None, ["x/sub"]), map[])
  const BOTH := Package(Manifest("top", None, ["x", "u"]), map[])

  const CARRYING: World :=
    map[Local("x") := Some(BOTH), Latest("x") := Some(CARRIER), Latest("u") := Some(USER), Latest("x/sub") := Some(SUB)]

  lemma LoopNames()
    ensures Split("x/sub", '/') == ["x", "sub"] && Split("x", '/') == ["x"] && Split("u", '/') == ["u"]
    ensures Plain("x/sub") && Plain("u") && Plain("x")
  {
    SplitPlain("x", '/');
    SplitPlain("u", '/');
    SplitPlain("sub", '/');
    SplitConcat("x", "sub", '/');
    assert "x" + ['/'] + "sub" == "x/sub";
  }

  lemma LoopPlaces(root: Path)
    ensures Dir(root, "x") == root + ["x"] && Dir(root, "u") == root + ["u"]
    ensures Dir(root, "x/sub") == root + ["x", "sub"]
    ensures Plain("x/sub") && Plain("u")
    ensures forall needs :: Valid(Manifest("x", None, needs)) && Valid(Manifest("u", None, needs))
  {
    LoopNames();
    hide Split, Dir;
    PlainDir(root, "x");
    PlainDir(root, "u");
    PlainDir(root, "x/sub");
  }

  lemma LoopIsThere(root: Path)
    ensures Honest(CARRYING) && Job(root, CARRYING, map[], BOTH).Loop(map[], ["u", "x/sub"])
  {
    LoopPlaces(root);
    hide Dir, Plain, Valid;
    var j, names := Job(root, CARRYING, map[], BOTH), ["u", "x/sub"];
    assert "u"[0] != "top"[0] && "x/sub"[0] != "top"[0];
    assert j.LoopStep(map[], names, 0) && j.LoopStep(map[], names, 1);
  }

  /** What `x` leaves on an empty tree: itself and its `sub`, and nothing in the way of the others. */
  lemma CarrierOnDisk(root: Path)
    ensures var disk := Land(map[], root + ["x"], CARRIER.Tree());
      && !ThroughAFile(root, map[], root + ["x"]) && root + ["x", "sub"] in disk && root + ["u"] !in disk
  {
    assert (root + ["x", "sub"])[|root + ["x"]|..] == ["sub"];
    assert (root + ["u"])[|root|] == "u" && (root + ["x"])[|root|] == "x";
  }

  lemma NothingInTheWay(root: Path)
    ensures var disk := Land(map[], root + ["x"], CARRIER.Tree());
      && !ThroughAFile(root, disk, root + ["u"])
      && !ThroughAFile(root, Land(disk, root + ["u"], USER.Tree()), root + ["top"])
  {
    var disk := Land(map[], root + ["x"], CARRIER.Tree());
    assert forall d :: d in disk ==> |d| >= |root| + 1;
    hide Land;
    DeepEnough(root, disk, "u");
    LandDeep(root, disk, "u", USER.Tree());
    DeepEnough(root, Land(disk, root + ["u"], USER.Tree()), "top");
  }

  lemma LandDeep(root: Path, disk: Disk, part: string, tree: Disk)
    requires forall d :: d in disk ==> |d| >= |root| + 1
    ensures forall d :: d in Land(disk, root + [part], tree) ==> |d| >= |root| + 1
  {
  }

  lemma DeepEnough(root: Path, disk: Disk, part: string)
    requires forall d :: d in disk ==> |d| >= |root| + 1
    ensures !ThroughAFile(root, disk, root + [part])
  {
  }

  /** `u` finds what it requires, and lands. */
  lemma UserLands(root: Path, world: World, s: State)
    requires Latest("u") in world && world[Latest("u")] == Some(USER) && "u" !in s.visited
    requires Dir(root, "x/sub") in s.disk && !ThroughAFile(root, s.disk, Dir(root, "u"))
    ensures Recursion(root, world, Latest("u"), s) ==
      Outcome(None, State(Land(s.disk, Dir(root, "u"), USER.Tree()), s.done + [USER], s.visited + {"u"}))
  {
    LoopPlaces(root);
    hide Dir, Valid, Installs.Recursion, Installs.Pulling, Land, ThroughAFile, Plain;
    Enters(root, world, Latest("u"), USER, s);
    PullsPresent(root, world, "x/sub", s.(visited := s.visited + {"u"}));
  }

  lemma MemberLandsIn(root: Path, world: World)
    requires Local("x") in world && world[Local("x")] == Some(BOTH)
    requires Latest("x") in world && world[Latest("x")] == Some(CARRIER)
    requires Latest("u") in world && world[Latest("u")] == Some(USER)
    ensures var o := Installing(root, world, Local("x"), map[]);
      o.error.None? && o.state.done == [CARRIER, USER, BOTH]
  {
    Places(root);
    NamesAreValid(BOTH.manifest.needs);
    NothingInTheWay(root);
    hide Dir, Valid, Split, Installs.Recursion, Installs.Pulling, Land, ThroughAFile, Plain;
    var start := State(map[], [], {});
    Enters(root, world, Local("x"), BOTH, start);
    assert start.visited + {"top"} == {"top"};
    BothPulled(root, world, start.(visited := {"top"}));
  }

  lemma BothPulled(root: Path, world: World, s: State)
    requires s == State(map[], [], {"top"})
    requires Latest("x") in world && world[Latest("x")] == Some(CARRIER)
    requires Latest("u") in world && world[Latest("u")] == Some(USER)
    ensures var o := Pulling(root, world, ["x", "u"], s);
      && o.error.None? && o.state.done == [CARRIER, USER]
      && o.state.disk == Land(Land(map[], root + ["x"], CARRIER.Tree()), root + ["u"], USER.Tree())
  {
    LoopPlaces(root);
    CarrierOnDisk(root);
    NothingInTheWay(root);
    hide Dir, Valid, Installs.Recursion, Installs.Pulling, Land, ThroughAFile, Plain;
    LandsAtOnce(root, world, Latest("x"), CARRIER, s);
    var t := Recursion(root, world, Latest("x"), s).state;
    PullsNext(root, world, ["x", "u"], s);
    UserLands(root, world, t);
    PullsOne(root, world, "u", t);
    assert ["x", "u"][1..] == ["u"];
  }

  /** A member of the loop lands, because what it requires has come along with another package. */
  lemma LoopMemberLands(root: Path)
    ensures Honest(CARRYING) && Job(root, CARRYING, map[], BOTH).Loop(map[], ["u", "x/sub"])
    ensures var o := Installing(root, CARRYING, Local("x"), map[]);
      o.error.None? && o.state.done == [CARRIER, USER, BOTH]
  {
    LoopIsThere(root);
    hide Installs.Recursion;
    MemberLandsIn(root, CARRYING);
  }

  lemma PullsPresent(root: Path, world: World, r: Name, s: State)
    requires Dir(root, r) in s.disk
    ensures Pulling(root, world, [r], s) == Outcome(None, s)
  {
    hide Installs.Recursion, Dir;
  }
}
