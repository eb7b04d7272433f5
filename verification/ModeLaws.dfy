/** What every step of the interactive mode keeps, and what single steps do: the sweep, the Esc walk,
    the notice on top, the hero. */
module ModeLaws {
  import opened Wrappers
  import opened Assoc
  import opened Streams
  import Trees
  import opened Modes

  // ---- the stream table

  /** Every stream sits under its own id, once, and a closed one is at rest. */
  ghost predicate Tidy(streams: Assoc<Id, Stream>) {
    streams != [] ==>
      && streams[0].1.id == streams[0].0 && AtRest(streams[0].1)
      && !Has(streams[1..], streams[0].0) && Tidy(streams[1..])
  }

  lemma {:induction false} TidyGet(streams: Assoc<Id, Stream>, id: Id)
    requires Tidy(streams) && Has(streams, id)
    ensures Get(streams, id).value.id == id && AtRest(Get(streams, id).value)
  {
    if streams[0].0 != id {
      TidyGet(streams[1..], id);
    }
  }

  lemma {:induction false} TidyPut(streams: Assoc<Id, Stream>, s: Stream)
    requires Tidy(streams) && AtRest(s)
    ensures Tidy(Put(streams, s.id, s))
  {
    if streams != [] && streams[0].0 != s.id {
      TidyPut(streams[1..], s);
      GetPut(streams[1..], s.id, s, streams[0].0);
    }
  }

  /** A sweep drops exactly the closed child streams that are neither focused nor listed. */
  lemma {:induction false} SweepDropsExactly(streams: Assoc<Id, Stream>, focused: Option<Id>, visible: set<Id>, id: Id)
    requires Tidy(streams)
    ensures Get(Swept(streams, focused, visible), id) ==
            if Has(streams, id) && Unreachable(Get(streams, id).value, focused, visible) then None else Get(streams, id)
  {
    hide Unreachable;
    if streams != [] {
      SweepDropsExactly(streams[1..], focused, visible, id);
      var rest := Swept(streams[1..], focused, visible);
      assert ([streams[0]] + rest)[1..] == rest;
      assert Swept(streams, focused, visible) ==
             if Unreachable(streams[0].1, focused, visible) then rest else [streams[0]] + rest;
      assert streams[0].0 == id ==> !Has(streams[1..], id);
    }
  }

  lemma {:induction false} TidySwept(streams: Assoc<Id, Stream>, focused: Option<Id>, visible: set<Id>)
    requires Tidy(streams)
    ensures Tidy(Swept(streams, focused, visible))
    ensures Busier(Swept(streams, focused, visible)) == Busier(streams)
  {
    if streams != [] {
      TidySwept(streams[1..], focused, visible);
      SweepDropsExactly(streams[1..], focused, visible, streams[0].0);
      var rest := Swept(streams[1..], focused, visible);
      assert ([streams[0]] + rest)[1..] == rest;
      assert Swept(streams, focused, visible) ==
             if Unreachable(streams[0].1, focused, visible) then rest else [streams[0]] + rest;
    }
  }

  // ---- the subagent rows

  /** The rows of registered streams. */
  function Kept(rows: seq<Row>, streams: Assoc<Id, Stream>): seq<Row> {
    if rows == [] then []
    else (if Has(streams, rows[0].stream) then [rows[0]] else []) + Kept(rows[1..], streams)
  }

  ghost predicate Within(small: Assoc<Id, Stream>, big: Assoc<Id, Stream>) {
    forall id {:trigger Has(small, id)} {:trigger Has(big, id)} :: Has(small, id) ==> Has(big, id)
  }

  lemma {:induction false} KeptTwice(rows: seq<Row>, small: Assoc<Id, Stream>, big: Assoc<Id, Stream>)
    requires Within(small, big)
    ensures Kept(Kept(rows, big), small) == Kept(rows, small)
  {
    hide Has;
    if rows != [] {
      KeptTwice(rows[1..], small, big);
      var rest := Kept(rows[1..], big);
      if Has(big, rows[0].stream) {
        assert Kept(rows, big) == [rows[0]] + rest;
        assert ([rows[0]] + rest)[1..] == rest;
      } else {
        assert Kept(rows, big) == rest;
      }
    }
  }

  /** The rows that survive a sweep are the rows of the streams that do. */
  lemma {:induction false} RowsOfSwept(streams: Assoc<Id, Stream>, focused: Option<Id>, visible: set<Id>,
                                       cards: Assoc<Id, OpenCard>, left: Assoc<Id, Stream>)
    requires Tidy(streams)
    requires forall id :: Has(streams, id) ==>
      (Has(left, id) <==> !Unreachable(Get(streams, id).value, focused, visible))
    ensures Kept(RowsOf(streams, cards), left) == RowsOf(Swept(streams, focused, visible), cards)
  {
    hide Unreachable, RowOf;
    if streams != [] {
      var rest := streams[1..];
      forall id | Has(rest, id)
        ensures Has(left, id) <==> !Unreachable(Get(rest, id).value, focused, visible)
      {
        assert Get(streams, id) == Get(rest, id);
      }
      RowsOfSwept(rest, focused, visible, cards, left);
      assert Has(streams, streams[0].0);
      RowsKept(streams, focused, visible, cards, left);
    }
  }

  lemma RowsKept(streams: Assoc<Id, Stream>, focused: Option<Id>, visible: set<Id>,
                 cards: Assoc<Id, OpenCard>, left: Assoc<Id, Stream>)
    requires Tidy(streams) && streams != []
    requires Has(left, streams[0].0) <==> !Unreachable(streams[0].1, focused, visible)
    requires Kept(RowsOf(streams[1..], cards), left) == RowsOf(Swept(streams[1..], focused, visible), cards)
    ensures Kept(RowsOf(streams, cards), left) == RowsOf(Swept(streams, focused, visible), cards)
  {
    hide Has, Get, ActivityOf;
    var head, rest := streams[0], RowsOf(streams[1..], cards);
    var swept := Swept(streams[1..], focused, visible);
    var drops := Unreachable(head.1, focused, visible);
    assert Swept(streams, focused, visible) == if drops then swept else [head] + swept;
    assert ([head] + swept)[1..] == swept;
    if head.1.parent.Some? {
      var row := RowOf(head.1, cards);
      assert RowsOf(streams, cards) == [row] + rest;
      assert ([row] + rest)[1..] == rest;
      assert row.stream == head.0;
      assert Kept([row] + rest, left) == if drops then Kept(rest, left) else [row] + Kept(rest, left);
      assert RowsOf([head] + swept, cards) == [row] + RowsOf(swept, cards);
    } else {
      assert RowsOf(streams, cards) == rest;
      assert RowsOf([head] + swept, cards) == RowsOf(swept, cards);
    }
  }

  // ---- what every step keeps

  /** The focus names a registered stream, and from the first root announce on there is one; the root
      is registered and nobody's child. */
  ghost predicate Anchored(m: Mode) {
    && (m.focused.Some? ==> Has(m.streams, m.focused.value))
    && (m.home.Some? <==> m.focused.Some?)
    && (m.root.Some? ==>
          m.focused.Some? && Has(m.streams, m.root.value) && Get(m.streams, m.root.value).value.parent.None?)
  }

  /** No unpinned notice is two or more live committed turns old. */
  ghost predicate AllFresh(notices: Assoc<string, Notice>, turns: nat) {
    notices != [] ==> !Expired(notices[0].1, turns) && AllFresh(notices[1..], turns)
  }

  /** While the hero is up, the one shown states the current facts. */
  ghost predicate HeroTold(m: Mode) {
    m.heroActive ==> m.root.Some? && Has(m.streams, m.root.value)
                     && m.hero == Some(HeroOf(m, Get(m.streams, m.root.value).value))
  }

  ghost predicate Core(m: Mode) {
    Tidy(m.streams) && Anchored(m) && AllFresh(m.notices, m.turns) && HeroTold(m)
  }

  /** The rows last sent to the list, less those of streams swept since, are the current rows. */
  ghost predicate RowsTold(m: Mode) {
    Kept(m.rows, m.streams) == RowsOf(m.streams, m.cards)
  }

  ghost predicate Sane(m: Mode) {
    Core(m) && RowsTold(m)
  }

  /** No closed stream is kept that nobody can reach. */
  ghost predicate NoLeak(m: Mode) {
    forall id {:trigger Has(m.streams, id)} ::
      Has(m.streams, id) ==> !Unreachable(Get(m.streams, id).value, m.focused, m.visible)
  }

  lemma SweepKeeps(m: Mode)
    requires Core(m)
    ensures Core(Sweep(m)) && NoLeak(Sweep(m))
    ensures RowsTold(m) ==> RowsTold(Sweep(m))
  {
    hide AtRest;
    var left := Swept(m.streams, m.focused, m.visible);
    TidySwept(m.streams, m.focused, m.visible);
    forall id
      ensures Get(left, id) == if Has(m.streams, id) && Unreachable(Get(m.streams, id).value, m.focused, m.visible)
                               then None else Get(m.streams, id)
    {
      SweepDropsExactly(m.streams, m.focused, m.visible, id);
    }
    if m.root.Some? {
      TidyGet(m.streams, m.root.value);
    }
    if m.focused.Some? {
      TidyGet(m.streams, m.focused.value);
    }
    SweepRows(m, left);
  }

  lemma SweepRows(m: Mode, left: Assoc<Id, Stream>)
    requires Tidy(m.streams) && left == Swept(m.streams, m.focused, m.visible)
    requires forall id ::
      Get(left, id) == if Has(m.streams, id) && Unreachable(Get(m.streams, id).value, m.focused, m.visible)
                       then None else Get(m.streams, id)
    ensures RowsTold(m) ==> RowsTold(Sweep(m))
  {
    hide Unreachable;
    RowsOfSwept(m.streams, m.focused, m.visible, m.cards, left);
    KeptTwice(m.rows, left, m.streams);
  }

  lemma {:induction false} RowsAllKept(streams: Assoc<Id, Stream>, cards: Assoc<Id, OpenCard>, all: Assoc<Id, Stream>)
    requires Tidy(streams) && forall id :: Has(streams, id) ==> Has(all, id)
    ensures Kept(RowsOf(streams, cards), all) == RowsOf(streams, cards)
  {
    hide ActivityOf;
    if streams != [] {
      var rest := streams[1..];
      forall id | Has(rest, id)
        ensures Has(all, id)
      {
        assert Has(streams, id);
      }
      RowsAllKept(rest, cards, all);
      assert Has(streams, streams[0].0);
      if streams[0].1.parent.Some? {
        var row := RowOf(streams[0].1, cards);
        assert RowsOf(streams, cards) == [row] + RowsOf(rest, cards);
        assert ([row] + RowsOf(rest, cards))[1..] == RowsOf(rest, cards);
        assert row.stream == streams[0].0;
      } else {
        assert RowsOf(streams, cards) == RowsOf(rest, cards);
      }
    }
  }

  lemma ReprojectedKeeps(m: Mode, now: Clock)
    requires Sane(m)
    ensures Sane(Reprojected(m, now))
    ensures NoLeak(m) ==> NoLeak(Reprojected(m, now))
  {
    hide Tidy, Kept, RowsOf, AllFresh, Swept, VisibleIn;
    SweepKeeps(m.(visible := VisibleIn(m.rows, now)));
  }

  lemma RelistedKeeps(m: Mode, now: Clock)
    requires Core(m)
    ensures Sane(Relisted(m, now))
    ensures NoLeak(m) ==> NoLeak(Relisted(m, now))
  {
    hide Tidy, Kept, RowsOf, AllFresh, Reprojected;
    RowsAllKept(m.streams, m.cards, m.streams);
    ReprojectedKeeps(m.(rows := RowsOf(m.streams, m.cards)), now);
  }

  lemma {:induction false} AgedIsFresh(notices: Assoc<string, Notice>, turns: nat)
    ensures AllFresh(Aged(notices, turns), turns)
  {
    if notices != [] {
      AgedIsFresh(notices[1..], turns);
      var rest := Aged(notices[1..], turns);
      assert ([notices[0]] + rest)[1..] == rest;
      assert Aged(notices, turns) == if Expired(notices[0].1, turns) then rest else [notices[0]] + rest;
    }
  }

  lemma {:induction false} PutKeepsFresh(notices: Assoc<string, Notice>, turns: nat, key: string, n: Notice)
    requires AllFresh(notices, turns) && !Expired(n, turns)
    ensures AllFresh(Put(notices, key, n), turns)
  {
    if notices != [] && notices[0].0 != key {
      PutKeepsFresh(notices[1..], turns, key, n);
    }
  }

  lemma {:induction false} DeleteKeepsFresh(notices: Assoc<string, Notice>, turns: nat, key: string)
    requires AllFresh(notices, turns)
    ensures AllFresh(Delete(notices, key), turns)
  {
    if notices != [] {
      DeleteKeepsFresh(notices[1..], turns, key);
      var rest := Delete(notices[1..], key);
      assert ([notices[0]] + rest)[1..] == rest;
    }
  }

  lemma AnnouncedKeeps(m: Mode, id: Id, parent: Option<Id>, call: Option<Id>, path: string, cwd: string, resumed: bool)
    requires Core(m) && (parent.Some? ==> !Has(m.streams, id))
    ensures Core(Announced(m, id, parent, call, path, cwd, resumed))
  {
    hide Tidy, AllFresh, Put, Get, TitleFor, HeroShown, AtRest;
    var s := Opened(id, parent, TitleFor(m, parent, call), path, cwd, resumed);
    OpenedAtRest(id, parent, TitleFor(m, parent, call), path, cwd, resumed);
    TidyPut(m.streams, s);
    GetPut(m.streams, id, s, id);
    if m.root.Some? {
      GetPut(m.streams, id, s, m.root.value);
    }
    if m.focused.Some? {
      GetPut(m.streams, id, s, m.focused.value);
    }
    if parent.None? {
      var m1 := m.(streams := Put(m.streams, id, s), heroActive := !resumed, root := Some(id));
      HeroShownKeeps(ShownStream(m1, id));
    }
  }

  lemma GlobalKeeps(m: Mode, e: Event)
    requires Sane(m)
    ensures Sane(FoldGlobal(m, e)) && (NoLeak(m) ==> NoLeak(FoldGlobal(m, e)))
  {
    hide Tidy, AllFresh, Kept, RowsOf;
  }

  // ---- one event

  lemma PutKeepsNoLeak(m: Mode, s: Stream)
    requires NoLeak(m) && !s.closed
    ensures NoLeak(m.(streams := Put(m.streams, s.id, s)))
  {
    hide Put, Get;
    forall other
      ensures Get(Put(m.streams, s.id, s), other) == if other == s.id then Some(s) else Get(m.streams, other)
      ensures Has(m.streams, other) == Get(m.streams, other).Some?
    {
      GetPut(m.streams, s.id, s, other);
    }
  }

  /** An event's own stream changes in place; the hero's facts of it change only where the handler
      shows the hero again. */
  lemma StreamFoldKeeps(m: Mode, id: Id, e: Event, now: Clock)
    requires Core(m) && Has(m.streams, id) && !Get(m.streams, id).value.closed
    requires ChecksOutKnown(Get(m.streams, id).value, e)
    ensures var m1 := m.(streams := Put(m.streams, id, FoldStream(Get(m.streams, id).value, e, now)));
      && Tidy(m1.streams) && Anchored(m1)
      && (e.ModelSelected? || (e.SkillsAvailable? && Some(id) == m.root) || HeroTold(m1))
      && (NoLeak(m) && !e.SessionClosed? ==> NoLeak(m1))
  {
    hide FoldStream, FoldFacts, Grown, Tidy, Put, Get, NoLeak, AllFresh, AtRest;
    var s := Get(m.streams, id).value;
    TidyGet(m.streams, id);
    FoldStreamKeeps(s, e, now);
    var s1 := FoldStream(s, e, now);
    TidyPut(m.streams, s1);
    forall other
      ensures Get(Put(m.streams, id, s1), other) == if other == id then Some(s1) else Get(m.streams, other)
    {
      GetPut(m.streams, id, s1, other);
    }
    if NoLeak(m) && !e.SessionClosed? {
      PutKeepsNoLeak(m, s1);
    }
  }

  lemma HeroShownKeeps(m: Mode)
    requires Tidy(m.streams) && Anchored(m) && AllFresh(m.notices, m.turns) && (m.heroActive ==> m.root.Some?)
    ensures Core(HeroShown(m)) && (NoLeak(m) ==> NoLeak(HeroShown(m)))
  {
    hide Tidy, AllFresh;
  }

  /** The same streams, names and hero. */
  ghost predicate SameTable(m: Mode, n: Mode) {
    && n.streams == m.streams && n.root == m.root && n.focused == m.focused && n.home == m.home
    && n.heroActive == m.heroActive && n.hero == m.hero && n.visible == m.visible
    && n.sessionsOnDisk == m.sessionsOnDisk && n.modelCounts == m.modelCounts && n.extensions == m.extensions
  }

  lemma SameTableKeeps(m: Mode, n: Mode)
    requires SameTable(m, n)
    ensures Anchored(n) == Anchored(m) && HeroTold(n) == HeroTold(m) && NoLeak(n) == NoLeak(m)
    ensures Tidy(n.streams) == Tidy(m.streams)
  {
  }

  lemma AsideIs(m: Mode, s: Stream, e: Event)
    ensures
      if e.ModelSelected? || (e.SkillsAvailable? && Some(s.id) == m.root) then Aside(m, s, e) == HeroShown(m)
      else if e.SessionClosed? then Aside(m, s, e) == Sweep(m)
      else SameTable(m, Aside(m, s, e))
  {
    hide NoticeKey, WithoutStream, ParseCard, Put, Delete, Sweep, HeroShown, Aged, FirstLine;
  }

  lemma AsideKeepsFresh(m: Mode, s: Stream, e: Event)
    requires AllFresh(m.notices, m.turns)
    ensures AllFresh(Aside(m, s, e).notices, Aside(m, s, e).turns)
  {
    hide AllFresh, Put, Delete, NoticeKey, WithoutStream, ParseCard;
    if e.TurnCommitted? {
      AgedIsFresh(m.notices, m.turns + 1);
    } else if e.Noticed? {
      PutKeepsFresh(m.notices, m.turns, NoticeKey(s.id, e.notice), Notice(e.level, e.text, e.level == Severe, m.turns));
    } else if e.NoticeCleared? {
      DeleteKeepsFresh(m.notices, m.turns, NoticeKey(s.id, e.notice));
    }
  }

  lemma AsideKeeps(m: Mode, s: Stream, e: Event)
    requires Tidy(m.streams) && Anchored(m) && AllFresh(m.notices, m.turns) && (m.heroActive ==> m.root.Some?)
    requires e.ModelSelected? || (e.SkillsAvailable? && Some(s.id) == m.root) || HeroTold(m)
    ensures Core(Aside(m, s, e))
    ensures NoLeak(m) || e.SessionClosed? ==> NoLeak(Aside(m, s, e))
  {
    hide Tidy, AllFresh, Anchored, HeroTold, NoLeak, SameTable, Aside;
    AsideKeepsFresh(m, s, e);
    AsideIs(m, s, e);
    if e.ModelSelected? || (e.SkillsAvailable? && Some(s.id) == m.root) {
      HeroShownKeeps(m);
    } else if e.SessionClosed? {
      SweepKeeps(m);
    } else {
      SameTableKeeps(m, Aside(m, s, e));
    }
  }

  lemma FoldAtKeeps(m: Mode, id: Id, e: Event, now: Clock)
    requires Core(m) && Has(m.streams, id) && !Get(m.streams, id).value.closed
    requires ChecksOutKnown(Get(m.streams, id).value, e)
    ensures Core(FoldAt(m, id, e, now)) && (NoLeak(m) ==> NoLeak(FoldAt(m, id, e, now)))
  {
    hide Aside, Tidy, AllFresh, FoldStream, HeroOf, NoLeak, AtRest;
    var s := Get(m.streams, id).value;
    TidyGet(m.streams, id);
    StreamFoldKeeps(m, id, e, now);
    AsideKeeps(m.(streams := Put(m.streams, id, FoldStream(s, e, now))), s, e);
  }

  /** Every registered stream's tree is a good one, so that no handler throws. */
  lemma NoHandlerThrows(m: Mode, id: Id, e: Event)
    requires Tidy(m.streams)
    ensures !ThrowsAt(m, id, e)
    ensures Has(m.streams, id) ==> Trees.Good(Get(m.streams, id).value.tree)
  {
    hide Tidy, Trees.Good, Throws;
    if Has(m.streams, id) {
      TidyGet(m.streams, id);
      TreeStaysGood(Get(m.streams, id).value, e);
    }
  }

  /** As long as the invariant holds, no frame throws. */
  lemma NoFrameThrows(m: Mode, f: Frame)
    requires Sane(m)
    ensures !FrameThrows(m, f)
  {
    hide Tidy, ThrowsAt, IsStartupFailure, IsGlobal, IsNotice;
    if f.Wire? && Target(m, f.stream, f.event).Some? {
      NoHandlerThrows(m, Target(m, f.stream, f.event).value, f.event);
    }
  }

  /** What the program needs to run on: the focus is registered, and every tree is well formed, though
      its head may dangle. */
  ghost predicate Fit(m: Mode) {
    && (m.focused.Some? ==> Has(m.streams, m.focused.value))
    && (forall id {:trigger Has(m.streams, id)} ::
          Has(m.streams, id) ==> Trees.WellFormed(Get(m.streams, id).value.tree))
  }

  lemma SaneIsFit(m: Mode)
    requires Sane(m)
    ensures Fit(m)
  {
    hide Tidy, Trees.WellFormed, Trees.HeadKnown;
    forall id | Has(m.streams, id)
      ensures Trees.WellFormed(Get(m.streams, id).value.tree)
    {
      TidyGet(m.streams, id);
    }
  }

  lemma CoreIsTidy(m: Mode)
    requires Core(m)
    ensures Tidy(m.streams)
  {
  }

  // ---- every step

  predicate IsRootAnnounce(m: Mode, a: Action) {
    a.Arrives? && a.frame.Wire? && !IsStartupFailure(m, a.frame)
    && a.frame.event.SessionOpened? && a.frame.event.parent.None?
  }

  /** Every step of every run keeps the invariant; but for a new root, no closed stream is left that
      nobody can reach. */
  lemma StepKeepsSane(m: Mode, a: Action, now: Clock)
    requires Sane(m) && LegalStep(m, a)
    ensures Sane(Step(m, a, now))
    ensures NoLeak(m) && !IsRootAnnounce(m, a) ==> NoLeak(Step(m, a, now))
  {
    hide Core, RowsTold, Relisted, Reprojected, NoLeak, IsStartupFailure;
    match a
    case Arrives(f) =>
      if f.Wire? && !IsStartupFailure(m, f) {
        WireKeepsSane(m, f, now);
      } else if f.CatalogStatus? {
        CheckingKeeps(m);
      }
    case Focuses(id) => FocusKeeps(m, id);
    case PressesEscape => EscapeKeeps(m);
    case Answers(request) =>
      if Has(m.cards, request) {
        AnswerKeeps(m, request);
        RelistedKeeps(m.(cards := Delete(m.cards, request)), now);
      }
    case ClockRings => ReprojectedKeeps(m, now);
  }

  lemma CheckingKeeps(m: Mode)
    requires Sane(m)
    ensures Sane(m.(checking := true)) && (NoLeak(m) ==> NoLeak(m.(checking := true)))
  {
    hide Tidy, AllFresh, Kept, RowsOf;
  }

  lemma AnswerKeeps(m: Mode, request: Id)
    requires Core(m)
    ensures Core(m.(cards := Delete(m.cards, request)))
    ensures NoLeak(m) ==> NoLeak(m.(cards := Delete(m.cards, request)))
  {
    hide Tidy, AllFresh;
  }

  lemma FocusKeeps(m: Mode, id: Id)
    requires Sane(m)
    ensures Sane(FocusOn(m, id)) && (NoLeak(m) ==> NoLeak(FocusOn(m, id)))
  {
    hide Tidy, AllFresh, Kept, RowsOf, Swept;
    if Some(id) != m.focused && Has(m.streams, id) {
      SweepKeeps(ShownStream(m, id));
    }
  }

  lemma EscapeKeeps(m: Mode)
    requires Sane(m)
    ensures Sane(Escaped(m)) && (NoLeak(m) ==> NoLeak(Escaped(m)))
  {
    hide Sane, NoLeak, FocusOn, EscapeTarget;
    if FocusedStream(m).Some? {
      FocusKeeps(m, EscapeTarget(m, FocusedStream(m).value));
    }
  }

  lemma BackendNoticeKeeps(m: Mode, e: Event)
    requires Sane(m)
    ensures e.Noticed? ==>
      var m1 := Posted(m, e.notice, e.level, e.text); Sane(m1) && (NoLeak(m) ==> NoLeak(m1))
    ensures e.NoticeCleared? ==>
      var m1 := m.(notices := Delete(m.notices, e.notice)); Sane(m1) && (NoLeak(m) ==> NoLeak(m1))
  {
    hide Tidy, AllFresh, Kept, RowsOf;
    if e.Noticed? {
      PutKeepsFresh(m.notices, m.turns, e.notice, Notice(e.level, e.text, e.level == Severe, m.turns));
    } else if e.NoticeCleared? {
      DeleteKeepsFresh(m.notices, m.turns, e.notice);
    }
  }

  lemma ChildAnnounceKeepsNoLeak(m: Mode, id: Id, parent: Option<Id>, call: Option<Id>,
                                 path: string, cwd: string, resumed: bool)
    requires Core(m) && NoLeak(m) && parent.Some?
    ensures NoLeak(Announced(m, id, parent, call, path, cwd, resumed))
  {
    PutKeepsNoLeak(m, Opened(id, parent, TitleFor(m, parent, call), path, cwd, resumed));
  }

  lemma WireKeepsSane(m: Mode, f: Frame, now: Clock)
    requires Sane(m) && f.Wire? && Legal(m, f) && !IsStartupFailure(m, f)
    ensures Sane(FoldWire(m, f.stream, f.event, now))
    ensures NoLeak(m) && !(f.event.SessionOpened? && f.event.parent.None?) ==>
      NoLeak(FoldWire(m, f.stream, f.event, now))
  {
    hide Core, RowsTold, Relisted, NoLeak, IsStartupFailure, Announced, FoldAt, FoldGlobal, Posted, Tidy, ThrowsAt;
    var e := f.event;
    if e.SessionOpened? {
      AnnouncedKeeps(m, e.id, e.parent, e.parentCall, e.path, e.cwd, e.resumed);
      if NoLeak(m) && e.parent.Some? {
        ChildAnnounceKeepsNoLeak(m, e.id, e.parent, e.parentCall, e.path, e.cwd, e.resumed);
      }
      RelistedKeeps(Announced(m, e.id, e.parent, e.parentCall, e.path, e.cwd, e.resumed), now);
    } else if IsGlobal(e) {
      GlobalKeeps(m, e);
    } else if f.stream.None? && IsNotice(e) {
      BackendNoticeKeeps(m, e);
    } else if Target(m, f.stream, e).Some? {
      var id := Target(m, f.stream, e).value;
      CoreIsTidy(m);
      NoHandlerThrows(m, id, e);
      FoldAtKeeps(m, id, e, now);
      RelistedKeeps(FoldAt(m, id, e, now), now);
    }
  }

  // ---- the one step that strands a closed stream

  lemma {:induction false} RowOfListed(streams: Assoc<Id, Stream>, cards: Assoc<Id, OpenCard>, r: Row)
    requires Tidy(streams)
    ensures r in RowsOf(streams, cards) <==>
            Has(streams, r.stream) && Get(streams, r.stream).value.parent.Some?
            && r == RowOf(Get(streams, r.stream).value, cards)
  {
    hide ActivityOf;
    if streams != [] {
      RowOfListed(streams[1..], cards, r);
    }
  }

  /** A child is on the freshly filtered list exactly when its own row shows. */
  lemma VisibleIff(streams: Assoc<Id, Stream>, cards: Assoc<Id, OpenCard>, id: Id, now: Clock)
    requires Tidy(streams) && Has(streams, id) && Get(streams, id).value.parent.Some?
    ensures id in VisibleIn(RowsOf(streams, cards), now) <==> Shows(RowOf(Get(streams, id).value, cards), now)
  {
    hide ActivityOf, Shows;
    TidyGet(streams, id);
    var row := RowOf(Get(streams, id).value, cards);
    RowOfListed(streams, cards, row);
    forall r | r in RowsOf(streams, cards) && r.stream == id
      ensures r == row
    {
      RowOfListed(streams, cards, r);
    }
  }

  lemma {:induction false} KeptMember(rows: seq<Row>, streams: Assoc<Id, Stream>, r: Row)
    requires r in rows && Has(streams, r.stream)
    ensures r in Kept(rows, streams)
  {
    hide Has;
    if r != rows[0] {
      KeptMember(rows[1..], streams, r);
    }
  }

  /** A closed child that is not focused is dropped, at the latest when the list filters its rows again
      a minute after the close. */
  lemma ClosedChildGoes(m: Mode, id: Id, now: Clock)
    requires Sane(m) && NoLeak(m) && Has(m.streams, id) && m.focused != Some(id)
    requires Get(m.streams, id).value.closed && Get(m.streams, id).value.parent.Some?
    requires now - Get(m.streams, id).value.terminalAt >= 60_000
    ensures !Has(Reprojected(m, now).streams, id)
  {
    hide Tidy, AllFresh, HeroTold, Kept, RowsOf, Swept;
    var shown := VisibleIn(m.rows, now);
    TidyGet(m.streams, id);
    forall r | r in m.rows && r.stream == id
      ensures !Shows(r, now)
    {
      KeptMember(m.rows, m.streams, r);
      RowOfListed(m.streams, m.cards, r);
    }
    assert id !in shown;
    SweepDropsExactly(m.streams, m.focused, shown, id);
  }

  /** A new root takes the focus without a sweep: it strands a closed stream exactly when it takes the
      focus off a closed child whose row does not show, and no row of the list hides at that moment. */
  lemma NewRootStrandsIff(m: Mode, id: Id, call: Option<Id>, path: string, cwd: string, resumed: bool, now: Clock)
    requires Sane(m) && NoLeak(m)
    ensures
      var a := Arrives(Wire(Some(id), SessionOpened(id, None, call, path, cwd, resumed)));
      var m1 := Announced(m, id, None, call, path, cwd, resumed);
      !NoLeak(Step(m, a, now)) <==>
        && m.focused.Some? && m.focused != Some(id)
        && Get(m.streams, m.focused.value).value.closed && Get(m.streams, m.focused.value).value.parent.Some?
        && !Shows(RowOf(Get(m.streams, m.focused.value).value, m.cards), now)
        && m.visible <= VisibleIn(RowsOf(m1.streams, m.cards), now)
  {
    hide AllFresh, HeroTold, HeroShown, RowOf, Shows, RowsOf, VisibleIn, Sweep, Tidy, Kept, Put, Get, TitleFor,
         AtRest;
    var m1 := Announced(m, id, None, call, path, cwd, resumed);
    AnnouncedKeeps(m, id, None, call, path, cwd, resumed);
    RootAnnounced(m, id, call, path, cwd, resumed);
    var shown := VisibleIn(RowsOf(m1.streams, m1.cards), now);
    var m2 := m1.(rows := RowsOf(m1.streams, m1.cards), visible := shown);
    if m.visible <= shown {
      forall other | Has(m2.streams, other)
        ensures Unreachable(Get(m2.streams, other).value, m2.focused, m2.visible) ==>
                  Some(other) == m.focused && other != id && other !in shown
                  && Get(m.streams, other).value.closed && Get(m.streams, other).value.parent.Some?
      {
        assert Get(m2.streams, other) == Get(m1.streams, other);
        if other != id {
          assert Has(m.streams, other);
          TidyGet(m.streams, other);
        }
      }
      if m.focused.Some? && m.focused != Some(id) {
        var f := m.focused.value;
        var s := Get(m.streams, f).value;
        TidyGet(m.streams, f);
        if s.parent.Some? {
          VisibleIff(m1.streams, m1.cards, f, now);
        }
        if s.closed && s.parent.Some? && f !in shown {
          assert Has(m2.streams, f) && Unreachable(Get(m2.streams, f).value, m2.focused, m2.visible);
        }
      }
    } else {
      SweepOfKeeps(m1, m2);
    }
  }

  /** What a root's announce does to the table. */
  lemma RootAnnounced(m: Mode, id: Id, call: Option<Id>, path: string, cwd: string, resumed: bool)
    requires Tidy(m.streams)
    ensures var m1 := Announced(m, id, None, call, path, cwd, resumed);
      && m1.cards == m.cards && m1.visible == m.visible && m1.focused == Some(id) && m1.root == Some(id)
      && (forall other {:trigger Get(m1.streams, other)} {:trigger Has(m1.streams, other)} ::
            Get(m1.streams, other) == if other == id then Some(Opened(id, None, None, path, cwd, resumed))
                                      else Get(m.streams, other))
      && (forall other {:trigger Has(m1.streams, other)} ::
            Has(m1.streams, other) ==> other == id || Has(m.streams, other))
  {
    hide Put, Get, HeroOf;
    var s := Opened(id, None, None, path, cwd, resumed);
    forall other
      ensures Get(Put(m.streams, id, s), other) == if other == id then Some(s) else Get(m.streams, other)
    {
      GetPut(m.streams, id, s, other);
    }
  }

  lemma SweepOfKeeps(m1: Mode, m2: Mode)
    requires Core(m1) && m2 == m1.(rows := m2.rows, visible := m2.visible)
    ensures NoLeak(Sweep(m2))
  {
    hide Tidy, AllFresh, NoLeak, Sweep;
    SweepKeeps(m2);
  }

  // ---- the notice on top

  lemma {:induction false} OfRankLists(notices: Assoc<string, Notice>, rank: nat)
    ensures OfRank(notices, rank) == [] <==> forall i :: 0 <= i < |notices| ==> Rank(notices[i].1.level) != rank
    ensures OfRank(notices, rank) != [] ==>
      exists i :: IsFirstOfRank(notices, rank, i) && OfRank(notices, rank)[0] == notices[i].1
  {
    if notices != [] {
      var rest := notices[1..];
      OfRankLists(rest, rank);
      if Rank(notices[0].1.level) == rank {
        assert IsFirstOfRank(notices, rank, 0);
      } else {
        assert forall i :: 0 < i < |notices| ==> notices[i] == rest[i - 1];
        if OfRank(rest, rank) != [] {
          var i :| IsFirstOfRank(rest, rank, i) && OfRank(rest, rank)[0] == rest[i].1;
          assert IsFirstOfRank(notices, rank, i + 1);
        }
      }
    }
  }

  ghost predicate IsFirstOfRank(notices: Assoc<string, Notice>, rank: nat, i: int) {
    && 0 <= i < |notices| && Rank(notices[i].1.level) == rank
    && forall j :: 0 <= j < i ==> Rank(notices[j].1.level) != rank
  }

  /** The notice on top is live, none is more severe, and it was the first of its severity. */
  lemma TopIsTheFirstWorst(notices: Assoc<string, Notice>)
    ensures Top(notices).None? <==> notices == []
    ensures Top(notices).Some? ==>
      exists i :: IsFirstOfRank(notices, Rank(Top(notices).value.level), i) && notices[i].1 == Top(notices).value
    ensures Top(notices).Some? ==>
      forall j :: 0 <= j < |notices| ==> Rank(Top(notices).value.level) <= Rank(notices[j].1.level)
  {
    hide OfRank;
    OfRankLists(notices, 0);
    OfRankLists(notices, 1);
    OfRankLists(notices, 2);
    if notices != [] {
      assert Rank(notices[0].1.level) <= 2;
    }
  }

  // ---- the program status

  /** Moving the focus, and whatever a sweep drops, never changes the program status: a closed stream
      neither runs nor compacts. */
  lemma SweepKeepsReport(m: Mode)
    requires Tidy(m.streams)
    ensures ReportOf(Sweep(m).cards, Sweep(m).streams, Sweep(m).resting) == ReportOf(m.cards, m.streams, m.resting)
  {
    TidySwept(m.streams, m.focused, m.visible);
  }

  // ---- the Esc walk

  /** Esc on a stream that is not the root walks to its parent (without one, to the root) exactly when
      that stream is still registered; otherwise it does nothing at all. */
  lemma EscapeWalksIff(m: Mode)
    requires Sane(m) && m.focused.Some? && m.focused != m.root
    ensures var target := EscapeTarget(m, FocusedStream(m).value);
      && (Escaped(m).focused == Some(target) <==> Has(m.streams, target))
      && (!Has(m.streams, target) ==> Escaped(m) == m)
  {
    hide Tidy, Swept;
    TidyGet(m.streams, m.focused.value);
  }

  // ---- notes without a stream, and the hero

  /** The stream whose pane takes the notes that name none: the first one ever shown. */
  predicate HomeFollows(m: Mode, n: Mode) {
    && (m.home.Some? ==> n.home == m.home)
    && (m.home.None? && m.focused.None? ==> n.home == n.focused)
  }

  /** The same root and hero state; the home of unaddressed notes is the first stream shown; and, with
      the hero down, the hero last shown. */
  ghost predicate SameNames(m: Mode, n: Mode) {
    && n.root == m.root && n.heroActive == m.heroActive && HomeFollows(m, n)
    && (!m.heroActive ==> n.hero == m.hero)
  }

  lemma ListingKeepsNames(m: Mode, now: Clock, id: Id)
    ensures SameNames(m, Relisted(m, now)) && SameNames(m, Reprojected(m, now))
    ensures SameNames(m, FocusOn(m, id)) && SameNames(m, Sweep(m))
  {
    hide RowsOf, VisibleIn, Swept;
  }

  lemma FoldAtKeepsNames(m: Mode, id: Id, e: Event, now: Clock)
    requires Has(m.streams, id)
    ensures SameNames(m, FoldAt(m, id, e, now))
  {
    hide Aside, Put, Get, FoldStream, HeroOf, Swept;
    var s := Get(m.streams, id).value;
    AsideIs(m.(streams := Put(m.streams, id, FoldStream(s, e, now))), s, e);
  }

  lemma AnnouncedNames(m: Mode, e: Event)
    requires e.SessionOpened?
    ensures Renamed(m, Announced(m, e.id, e.parent, e.parentCall, e.path, e.cwd, e.resumed), e)
  {
    hide Put, HeroOf, TitleFor;
  }

  /** What an announce makes of the names: a parentless one takes the root, and whether it is a fresh root
      decides whether the hero is up. */
  ghost predicate Renamed(m: Mode, n: Mode, e: Event)
    requires e.SessionOpened?
  {
    && n.root == (if e.parent.None? then Some(e.id) else m.root)
    && (n.heroActive <==> e.parent.None? && !e.resumed)
    && (!n.heroActive ==> n.hero == m.hero)
    && HomeFollows(m, n)
    && (e.parent.None? ==> n.focused == Some(e.id) && (m.home.None? ==> n.home == Some(e.id)))
  }

  lemma GlobalKeepsNames(m: Mode, e: Event)
    ensures SameNames(m, FoldGlobal(m, e))
  {
    hide HeroOf, Get;
  }

  lemma PostedKeepsNames(m: Mode, e: Event)
    ensures e.Noticed? ==> SameNames(m, Posted(m, e.notice, e.level, e.text))
  {
    hide Put;
  }

  lemma WireKeepsNames(m: Mode, stream: Option<Id>, e: Event, now: Clock)
    ensures var n := FoldWire(m, stream, e, now);
      if e.SessionOpened? then Renamed(m, n, e) else SameNames(m, n)
  {
    hide Relisted, FoldAt, Announced, FoldGlobal, Posted, Delete, Get, Target, IsGlobal, IsNotice;
    GlobalKeepsNames(m, e);
    PostedKeepsNames(m, e);
    if e.SessionOpened? {
      AnnounceRenames(m, e, now);
    } else if Target(m, stream, e).Some? {
      var id := Target(m, stream, e).value;
      FoldAtKeepsNames(m, id, e, now);
      FoldAtKeepsFocus(m, id, e, now);
      ListingKeepsNames(FoldAt(m, id, e, now), now, "");
      ListingKeepsFocus(FoldAt(m, id, e, now), now);
    }
  }

  lemma AnnounceRenames(m: Mode, e: Event, now: Clock)
    requires e.SessionOpened?
    ensures Renamed(m, Relisted(Announced(m, e.id, e.parent, e.parentCall, e.path, e.cwd, e.resumed), now), e)
  {
    hide Relisted, Announced;
    var n := Announced(m, e.id, e.parent, e.parentCall, e.path, e.cwd, e.resumed);
    AnnouncedNames(m, e);
    ListingKeepsNames(n, now, "");
    ListingKeepsFocus(n, now);
  }

  lemma ListingKeepsFocus(m: Mode, now: Clock)
    ensures Relisted(m, now).focused == m.focused && Relisted(m, now).home == m.home
  {
    hide RowsOf, VisibleIn, Swept;
  }

  lemma FoldAtKeepsFocus(m: Mode, id: Id, e: Event, now: Clock)
    requires Has(m.streams, id)
    ensures FoldAt(m, id, e, now).focused == m.focused && FoldAt(m, id, e, now).home == m.home
  {
    hide Aside, Put, Get, FoldStream, HeroOf, Swept;
    var s := Get(m.streams, id).value;
    AsideIs(m.(streams := Put(m.streams, id, FoldStream(s, e, now))), s, e);
  }

  predicate IsAnnounce(a: Action) {
    a.Arrives? && a.frame.Wire? && a.frame.event.SessionOpened?
  }

  /** An announce alone decides root and hero state: a parentless one takes the root, and the hero is up
      after it exactly when it is a fresh root's. Every other step keeps both. The home of notes that name
      no stream is the first stream shown, and nothing moves it after that. A hero that is down stays as
      it was last shown. */
  lemma StepKeepsNames(m: Mode, a: Action, now: Clock)
    ensures var n := Step(m, a, now);
      && (if IsAnnounce(a) then Renamed(m, n, a.frame.event) else SameNames(m, n))
      && HomeFollows(m, n) && (!n.heroActive ==> n.hero == m.hero)
  {
    hide Relisted, Reprojected, FocusOn, FoldWire, IsStartupFailure;
    match a
    case Arrives(f) =>
      if f.Wire? {
        NoAnnounceFails(m, f);
        WireKeepsNames(m, f.stream, f.event, now);
      }
    case Focuses(id) => ListingKeepsNames(m, now, id);
    case PressesEscape =>
      if FocusedStream(m).Some? {
        ListingKeepsNames(m, now, EscapeTarget(m, FocusedStream(m).value));
      }
    case Answers(request) => ListingKeepsNames(m.(cards := Delete(m.cards, request)), now, "");
    case ClockRings => ListingKeepsNames(m, now, "");
  }

  lemma NoAnnounceFails(m: Mode, f: Frame)
    requires f.Wire?
    ensures f.event.SessionOpened? ==> !IsStartupFailure(m, f)
  {
  }

  /** After a root's announce its pane takes the notes that name no stream exactly when nothing was shown
      before it, or it was the first stream shown itself. */
  lemma NotesReachTheRootIff(m: Mode, a: Action, now: Clock)
    requires IsAnnounce(a) && a.frame.event.parent.None?
    ensures var n := Step(m, a, now); var id := a.frame.event.id;
      n.root == Some(id) && (n.home == n.root <==> m.home.None? || m.home == Some(id))
  {
    hide Step;
    StepKeepsNames(m, a, now);
  }
}
