/** What single steps of the interactive mode do (`mode.ts`): where an event goes, what a sweep drops, where
    the focus and Esc lead, which notice is on top, and what a card is made of. */
module ModeSteps {
  import opened Wrappers
  import opened Sequences
  import opened Assoc
  import opened Streams
  import opened Modes
  import opened ModeLaws
  import opened ModeRuns
  import opened StreamLives
  import opened StreamFacts
  import opened ModeShows

  // ---- where an event goes

  /** The stream an event is meant for: the one on its stamp; without a stamp a close's own, else the root. */
  predicate MeantFor(m: Mode, stream: Option<Id>, e: Event, id: Id) {
    if stream.Some? then stream == Some(id) else if e.SessionClosed? then e.id == id else m.root == Some(id)
  }

  /** An event of a stream reaches the stream it is meant for, when that one is registered, and no other.
      Announces and the four inventories go to the mode, and so do notices without a stamp. */
  lemma EventReachesIff(m: Mode, stream: Option<Id>, e: Event, now: Clock, id: Id)
    ensures EffectOf(m, Arrives(Wire(stream, e)), now) == Folds(id, e, now) <==>
      && !e.SessionOpened? && !e.SessionsAvailable? && !e.ModelsAvailable? && !e.ProvidersAvailable?
      && !e.ExtensionsAvailable? && !(stream.None? && (e.Noticed? || e.NoticeCleared?))
      && MeantFor(m, stream, e, id) && Has(m.streams, id)
  {
    hide Has, Get, TitleFor;
  }

  // ---- the sweep

  /** A sweep drops a stream exactly when it is closed, a child, not focused and not on the list. */
  lemma SweepDropsIff(m: Mode, id: Id)
    requires Tidy(m.streams) && Has(m.streams, id)
    ensures var s := Get(m.streams, id).value;
      if s.closed && s.parent.Some? && m.focused != Some(id) && id !in m.visible then !Has(Sweep(m).streams, id)
      else Get(Sweep(m).streams, id) == Some(s)
  {
    TidyGet(m.streams, id);
    SweepDropsExactly(m.streams, m.focused, m.visible, id);
    hide Swept, Tidy, AtRest;
  }

  // ---- the focus

  /** The focus moves to a registered stream, and nowhere else; its first pane is the home of unaddressed
      notes. */
  lemma FocusMovesIff(m: Mode, id: Id)
    ensures var n := FocusOn(m, id);
      && n.focused == (if Has(m.streams, id) then Some(id) else m.focused)
      && n.root == m.root && n.cards == m.cards && n.notices == m.notices
  {
    hide Swept;
  }

  /** Off the root Esc leads to the parent of the focused stream, or to the root where it has none; on the
      root, to a stream that is gone, and without a focus it leads nowhere. */
  lemma EscapeLeads(m: Mode)
    requires Sane(m)
    ensures var n := Escaped(m);
      if m.focused.None? || m.focused == m.root then n == m
      else
        var s := Get(m.streams, m.focused.value).value;
        && (s.parent.Some? && Has(m.streams, s.parent.value) ==> n.focused == s.parent)
        && (s.parent.Some? && !Has(m.streams, s.parent.value) ==> n == m)
        && (s.parent.None? && m.root.Some? ==> n.focused == m.root)
  {
    hide Tidy, Swept, AtRest, RowsTold, HeroTold, AllFresh;
    if m.focused.Some? {
      TidyGet(m.streams, m.focused.value);
    }
  }

  // ---- notices

  predicate FirstOfLevel(notices: Assoc<string, Notice>, i: int, level: Level) {
    0 <= i < |notices| && notices[i].1.level == level && forall j :: 0 <= j < i ==> notices[j].1.level != level
  }

  predicate NoneOf(notices: Assoc<string, Notice>, level: Level) {
    forall j :: 0 <= j < |notices| ==> notices[j].1.level != level
  }

  /** The notice on top is the first error; without one the first warning; without that the first of all. */
  lemma TopIs(notices: Assoc<string, Notice>)
    ensures Top(notices).None? <==> notices == []
    ensures Overflow(notices) == if notices == [] then 0 else |notices| - 1
    ensures forall i :: FirstOfLevel(notices, i, Severe) ==> Top(notices) == Some(notices[i].1)
    ensures forall i :: FirstOfLevel(notices, i, Warn) && NoneOf(notices, Severe) ==> Top(notices) == Some(notices[i].1)
    ensures notices != [] && NoneOf(notices, Severe) && NoneOf(notices, Warn) ==> Top(notices) == Some(notices[0].1)
  {
    TopIsTheFirstWorst(notices);
    if notices != [] {
      var top := Top(notices).value;
      var i :| IsFirstOfRank(notices, Rank(top.level), i) && notices[i].1 == top;
      hide Top;
      forall k, level | FirstOfLevel(notices, k, level)
        ensures level == top.level ==> k == i
      {
        assert !(k < i && level == top.level) && !(i < k && level == top.level);
      }
    }
  }

  lemma {:induction false} BeforeSlash(a: string, b: string, x: string, y: string)
    requires '/' !in a && '/' !in b && a + "/" + x == b + "/" + y
    ensures a == b && x == y
  {
    if a == "" || b == "" {
      assert (a + "/" + x)[|a|] == '/' && (b + "/" + y)[|b|] == '/';
      assert a == "" ==> (b + "/" + y)[0] == '/';
      assert b == "" ==> (a + "/" + x)[0] == '/';
      assert a == b == "";
      assert x == (a + "/" + x)[1..] && y == (b + "/" + y)[1..];
    } else {
      assert (a + "/" + x)[0] == a[0] && (b + "/" + y)[0] == b[0];
      assert (a + "/" + x)[1..] == a[1..] + "/" + x && (b + "/" + y)[1..] == b[1..] + "/" + y;
      BeforeSlash(a[1..], b[1..], x, y);
      assert a == [a[0]] + a[1..] && b == [b[0]] + b[1..];
    }
  }

  /** Notices of different streams, or of different names, never meet under one key, as long as stream ids
      hold no slash; and none meets the backend's own, whose names hold none. */
  lemma NoticesAreApart(a: Id, x: string, b: Id, y: string)
    requires '/' !in a && '/' !in b
    ensures NoticeKey(a, x) == NoticeKey(b, y) <==> a == b && x == y
    ensures '/' !in y ==> NoticeKey(a, x) != y
  {
    if NoticeKey(a, x) == NoticeKey(b, y) {
      BeforeSlash(a, b, x, y);
    }
    assert NoticeKey(a, x)[|a|] == '/';
  }

  // ---- cards

  lemma {:induction false} LabelsConcat(a: seq<Option<string>>, b: seq<Option<string>>)
    ensures Labels(a + b) == Labels(a) + Labels(b)
  {
    if a == [] {
      assert a + b == b;
    } else {
      var head := if a[0].Some? then [a[0].value] else [];
      LabelsConcat(a[1..], b);
      assert (a + b)[0] == a[0] && (a + b)[1..] == a[1..] + b;
      assert Labels(a + b) == head + Labels(a[1..] + b);
      assert Labels(a) == head + Labels(a[1..]);
      hide Labels;
      Regroup(head, Labels(a[1..]), Labels(b));
    }
  }

  /** The labels are those of the options that have one, in their order. */
  lemma {:induction false} LabelsAre(options: seq<Option<string>>)
    ensures |Labels(options)| <= |options|
    ensures (forall i :: 0 <= i < |options| ==> options[i].Some?) ==>
      |Labels(options)| == |options| && forall i :: 0 <= i < |options| ==> Labels(options)[i] == options[i].value
    ensures Labels(options) == [] <==> forall i :: 0 <= i < |options| ==> options[i].None?
    ensures forall name :: name in Labels(options) <==> Some(name) in options
  {
    if options != [] {
      LabelsAre(options[1..]);
      assert options == [options[0]] + options[1..];
    }
  }

  /** A request becomes a card exactly when it is of one of the two native kinds, its payload is an object,
      and there is a way to answer it: a labelled option, or free text. */
  lemma CardIff(id: Id, uiType: string, payload: Payload)
    ensures ParseCard(id, uiType, payload).Some? <==>
      && (uiType == "native:select_one" || uiType == "native:select_any")
      && payload.Fields? && (payload.freeText || exists name :: Some(name) in payload.options)
    ensures ParseCard(id, uiType, payload).Some? ==>
      var card := ParseCard(id, uiType, payload).value;
      && card.id == id && card.uiType == uiType && card.freeText == payload.freeText
      && (payload.title.Some? ==> card.title == payload.title.value)
      && (payload.title.None? ==> card.title == "(untitled ask)")
      && card.body == (if payload.body.Some? then payload.body.value else "")
      && (forall name :: name in card.options <==> Some(name) in payload.options)
  {
    if payload.Fields? {
      LabelsAre(payload.options);
      hide Labels;
      if i :| 0 <= i < |payload.options| && payload.options[i].Some? {
        assert Some(payload.options[i].value) in payload.options;
      }
    }
  }

  // ---- the list

  /** A child's row shows while it runs, before its first run has ended, and for a minute after its last
      end. */
  lemma ListShowsIff(h: History, id: Id, now: Clock)
    requires LegalRun(h) && Has(Run(h).streams, id) && Get(Run(h).streams, id).value.parent.Some?
    ensures id in VisibleIn(RowsOf(Run(h).streams, Run(h).cards), now) <==>
      || Runs(Trace(h), id) || !Rests(Trace(h), id)
      || exists i: nat, how :: RestsSince(Trace(h), i, id, how) && now - Trace(h)[i].now < 60_000
  {
    hide Run, LegalRun, Trace, Runs, RestsSince, Core, VisibleIn, RowsOf, ActivityOf, AwaitedBy;
    var m := Run(h);
    RunKeepsSane(h);
    CoreIsTidy(m);
    hide Tidy;
    VisibleIff(m.streams, m.cards, id, now);
    RunningIff(h, id);
  }
}
