/** What the dock, the subagent list, the landing page and the program status tell, read off the record of
    the whole run. */
module ModeFacts {
  import opened Wrappers
  import opened Assoc
  import opened Streams
  import opened Modes
  import opened ModeLaws
  import opened ModeRuns
  import opened StreamLives
  import opened StreamFacts
  import Previews
  import TreeEntries

  // ---- facts of the whole mode

  /** The fact is as the last step to set it left it, or as it was in the beginning. */
  ghost predicate LastOr<E, T>(t: seq<E>, sets: E -> Option<T>, first: T, v: T) {
    LastLeft(t, sets, v) || (v == first && forall i :: 0 <= i < |t| ==> sets(t[i]).None?)
  }

  lemma LastOrStep<E, T>(t: seq<E>, sets: E -> Option<T>, first: T, v: T)
    requires t != []
    requires if sets(t[|t| - 1]).Some? then v == sets(t[|t| - 1]).value else LastOr(t[..|t| - 1], sets, first, v)
    ensures LastOr(t, sets, first, v)
  {
    LastLeftStep(t, sets, v);
  }

  /** The event a step brings from the wire. */
  function Brings(a: Action): Option<Event> {
    if a.Arrives? && a.frame.Wire? then Some(a.frame.event) else None
  }

  function SetsChannel(): ((Action, Clock)) -> Option<Option<string>> {
    (step: (Action, Clock)) =>
      match Brings(step.0)
      case Some(ProvidersAvailable(channel)) => Some(Some(channel))
      case _ => None
  }

  /** A check of the catalog goes on until the providers are announced. */
  function SetsChecking(): ((Action, Clock)) -> Option<bool> {
    (step: (Action, Clock)) =>
      if step.0 == Arrives(CatalogStatus) then Some(true)
      else match Brings(step.0)
        case Some(ProvidersAvailable(_)) => Some(false)
        case _ => None
  }

  function SetsOnDisk(): ((Action, Clock)) -> Option<Option<nat>> {
    (step: (Action, Clock)) =>
      match Brings(step.0)
      case Some(SessionsAvailable(count)) => Some(Some(count))
      case _ => None
  }

  function SetsModels(): ((Action, Clock)) -> Option<seq<nat>> {
    (step: (Action, Clock)) =>
      match Brings(step.0)
      case Some(ModelsAvailable(counts)) => Some(counts)
      case _ => None
  }

  function SetsExtensions(): ((Action, Clock)) -> Option<Option<(seq<string>, nat)>> {
    (step: (Action, Clock)) =>
      match Brings(step.0)
      case Some(ExtensionsAvailable(names, dead)) => Some(Some((names, dead)))
      case _ => None
  }

  /** The root is the stream of the last parentless announce. */
  function SetsRoot(): Effect -> Option<Option<Id>> {
    (x: Effect) => if x.Opens? && x.announced.parent.None? then Some(Some(x.announced.id)) else None
  }

  /** How the last run or compaction of any stream ended; an abort leaves nothing to say. */
  function SetsResting(): Effect -> Option<Report> {
    (x: Effect) =>
      if !x.Folds? then None
      else match x.event
        case RunFinished => Some(Done)
        case RunAborted => Some(Unstarted)
        case RunFailed(message) => Some(Troubled(FirstLine(message)))
        case CompactionEnd(_) => Some(Done)
        case CompactionFailed(message) => Some(Troubled(FirstLine(message)))
        case _ => None
  }

  ghost predicate InventoryAsTold(m: Mode, h: History) {
    && LastOr(h, SetsChannel(), None, m.channel)
    && LastOr(h, SetsChecking(), false, m.checking)
    && LastOr(h, SetsOnDisk(), None, m.sessionsOnDisk)
    && LastOr(h, SetsModels(), [], m.modelCounts)
    && LastOr(h, SetsExtensions(), None, m.extensions)
  }

  predicate SameInventory(m: Mode, n: Mode) {
    && n.channel == m.channel && n.checking == m.checking && n.sessionsOnDisk == m.sessionsOnDisk
    && n.modelCounts == m.modelCounts && n.extensions == m.extensions
  }

  /** What a step leaves of the inventory. */
  predicate Inventoried(m: Mode, a: Action, n: Mode) {
    && n.channel == (match Brings(a) case Some(ProvidersAvailable(channel)) => Some(channel) case _ => m.channel)
    && n.checking == (a == Arrives(CatalogStatus)
                      || (m.checking && match Brings(a) case Some(ProvidersAvailable(_)) => false case _ => true))
    && n.sessionsOnDisk == (match Brings(a) case Some(SessionsAvailable(count)) => Some(count)
                                            case _ => m.sessionsOnDisk)
    && n.modelCounts == (match Brings(a) case Some(ModelsAvailable(counts)) => counts case _ => m.modelCounts)
    && n.extensions == (match Brings(a) case Some(ExtensionsAvailable(names, dead)) => Some((names, dead))
                                        case _ => m.extensions)
  }

  predicate Inventories(a: Action) {
    a == Arrives(CatalogStatus) || (Brings(a).Some? && IsGlobal(Brings(a).value))
  }

  lemma SameInventoried(m: Mode, a: Action, n: Mode)
    requires !Inventories(a) && SameInventory(m, n)
    ensures Inventoried(m, a, n)
  {
  }

  lemma ListingKeepsInventory(m: Mode, now: Clock, id: Id)
    ensures SameInventory(m, Relisted(m, now)) && SameInventory(m, Reprojected(m, now))
    ensures SameInventory(m, FocusOn(m, id)) && SameInventory(m, Sweep(m))
  {
    hide RowsOf, VisibleIn, Swept;
  }

  lemma FoldAtKeepsInventory(m: Mode, id: Id, e: Event, now: Clock)
    ensures SameInventory(m, FoldAt(m, id, e, now))
  {
    hide Put, Delete, Aged, NoticeKey, FoldStream, HeroOf, Swept, ParseCard, WithoutStream, FirstLine, Get;
  }

  lemma FrameKeepsInventory(m: Mode, e: Event)
    ensures e.SessionOpened? ==>
      SameInventory(m, Announced(m, e.id, e.parent, e.parentCall, e.path, e.cwd, e.resumed))
    ensures e.Noticed? ==> SameInventory(m, Posted(m, e.notice, e.level, e.text))
  {
    hide Put, HeroOf, TitleFor;
  }

  lemma GlobalInventories(m: Mode, stream: Option<Id>, e: Event)
    requires IsGlobal(e)
    ensures Inventoried(m, Arrives(Wire(stream, e)), FoldGlobal(m, e))
  {
    hide HeroOf;
  }

  lemma WireKeepsInventory(m: Mode, stream: Option<Id>, e: Event, now: Clock)
    requires !IsGlobal(e)
    ensures SameInventory(m, FoldWire(m, stream, e, now))
  {
    hide Relisted, FoldAt, Announced, Posted, Delete, Get, Target, IsGlobal, ThrowsAt, FoldGlobal;
    FrameKeepsInventory(m, e);
    if e.SessionOpened? {
      ListingKeepsInventory(Announced(m, e.id, e.parent, e.parentCall, e.path, e.cwd, e.resumed), now, "");
    } else if Target(m, stream, e).Some? {
      var id := Target(m, stream, e).value;
      FoldAtKeepsInventory(m, id, e, now);
      ListingKeepsInventory(FoldAt(m, id, e, now), now, "");
    }
  }

  lemma ActionKeepsInventory(m: Mode, a: Action, now: Clock)
    requires !a.Arrives?
    ensures SameInventory(m, Step(m, a, now))
  {
    hide Relisted, Reprojected, FocusOn, Delete, Get, FocusedStream, EscapeTarget;
    match a
    case Focuses(id) => ListingKeepsInventory(m, now, id);
    case PressesEscape =>
      if FocusedStream(m).Some? {
        ListingKeepsInventory(m, now, EscapeTarget(m, FocusedStream(m).value));
      }
    case Answers(request) => ListingKeepsInventory(m.(cards := Delete(m.cards, request)), now, "");
    case ClockRings => ListingKeepsInventory(m, now, "");
  }

  lemma StepInventories(m: Mode, a: Action, now: Clock)
    ensures Inventoried(m, a, Step(m, a, now))
  {
    if Inventories(a) && a != Arrives(CatalogStatus) {
      GlobalInventories(m, a.frame.stream, a.frame.event);
    }
    if !Inventories(a) {
      if a.Arrives? && a.frame.Wire? {
        WireKeepsInventory(m, a.frame.stream, a.frame.event, now);
      } else if !a.Arrives? {
        ActionKeepsInventory(m, a, now);
      }
      hide Step, SameInventory, Inventories;
      if SameInventory(m, Step(m, a, now)) {
        SameInventoried(m, a, Step(m, a, now));
      }
    }
  }

  lemma {:induction false} InventoryIsTheLast(h: History)
    ensures InventoryAsTold(Run(h), h)
  {
    hide Step, LastOr;
    if h == [] {
      NothingInventoried();
    } else {
      var n := |h| - 1;
      InventoryIsTheLast(h[..n]);
      StepInventories(Run(h[..n]), h[n].0, h[n].1);
      InventoryStep(h, Run(h[..n]), Run(h));
    }
  }

  lemma NothingInventoried()
    ensures InventoryAsTold(START, [])
  {
  }

  lemma InventoryStep(h: History, m: Mode, n: Mode)
    requires h != [] && InventoryAsTold(m, h[..|h| - 1]) && Inventoried(m, h[|h| - 1].0, n)
    ensures InventoryAsTold(n, h)
  {
    hide LastOr;
    LastOrStep(h, SetsChannel(), None, n.channel);
    LastOrStep(h, SetsChecking(), false, n.checking);
    LastOrStep(h, SetsOnDisk(), None, n.sessionsOnDisk);
    LastOrStep(h, SetsModels(), [], n.modelCounts);
    LastOrStep(h, SetsExtensions(), None, n.extensions);
  }

  // ---- the root, and how the program rests

  lemma AsideRests(m: Mode, s: Stream, e: Event, now: Clock)
    ensures var sets := SetsResting()(Folds(s.id, e, now));
      Aside(m, s, e).resting == if sets.Some? then sets.value else m.resting
  {
    hide ParseCard, WithoutStream, Delete, Put, NoticeKey, Aged, HeroOf, Swept, FirstLine, Get;
  }

  lemma FoldAtRests(m: Mode, id: Id, e: Event, now: Clock)
    requires Tidy(m.streams) && Has(m.streams, id)
    ensures var sets := SetsResting()(Folds(id, e, now));
      FoldAt(m, id, e, now).resting == if sets.Some? then sets.value else m.resting
  {
    hide Aside, Tidy, FoldStream, Put, SetsResting;
    TidyGet(m.streams, id);
    var s := Get(m.streams, id).value;
    AsideRests(m.(streams := Put(m.streams, id, FoldStream(s, e, now))), s, e, now);
  }

  lemma ListingKeepsResting(m: Mode, now: Clock, id: Id)
    ensures Relisted(m, now).resting == m.resting && Reprojected(m, now).resting == m.resting
    ensures FocusOn(m, id).resting == m.resting
  {
    hide RowsOf, VisibleIn, Swept;
  }

  lemma FrameKeepsResting(m: Mode, e: Event)
    ensures e.SessionOpened? ==>
      Announced(m, e.id, e.parent, e.parentCall, e.path, e.cwd, e.resumed).resting == m.resting
    ensures FoldGlobal(m, e).resting == m.resting
    ensures e.Noticed? ==> Posted(m, e.notice, e.level, e.text).resting == m.resting
  {
    hide Put, HeroOf, TitleFor;
  }

  lemma RestsOnFolds(x: Effect)
    ensures SetsResting()(x).Some? ==> x.Folds?
  {
    hide FirstLine;
  }

  lemma StepRests(m: Mode, a: Action, now: Clock)
    requires Sane(m)
    ensures var sets := SetsResting()(EffectOf(m, a, now));
      Step(m, a, now).resting == if sets.Some? then sets.value else m.resting
  {
    hide Tidy, SetsResting, Aside, Relisted, Reprojected, FocusOn, Announced, FoldGlobal, FoldAt, Posted, Put, Delete,
         TitleFor, AllFresh, Anchored, HeroTold, RowsTold;
    RestsOnFolds(EffectOf(m, a, now));
    match a
    case Arrives(f) =>
      if f.Wire? {
        var e := f.event;
        FrameKeepsResting(m, e);
        var id := Target(m, f.stream, e);
        if e.SessionOpened? {
          ListingKeepsResting(Announced(m, e.id, e.parent, e.parentCall, e.path, e.cwd, e.resumed), now, "");
        } else if id.Some? {
          FoldAtRests(m, id.value, e, now);
          ListingKeepsResting(FoldAt(m, id.value, e, now), now, "");
        }
      }
    case Focuses(id) => ListingKeepsResting(m, now, id);
    case PressesEscape =>
      if FocusedStream(m).Some? {
        ListingKeepsResting(m, now, EscapeTarget(m, FocusedStream(m).value));
      }
    case Answers(request) => ListingKeepsResting(m.(cards := Delete(m.cards, request)), now, "");
    case ClockRings => ListingKeepsResting(m, now, "");
  }

  /** The program rests as the last run or compaction to end left it. */
  lemma {:induction false} RestingIsTheLast(h: History)
    requires LegalRun(h)
    ensures LastOr(Trace(h), SetsResting(), Unstarted, Run(h).resting)
  {
    hide Step, LegalStep, EffectOf, Sane, LastOr, SetsResting;
    if h == [] {
      assert Unstarted == START.resting && LastOr<Effect, Report>([], SetsResting(), Unstarted, Unstarted) by {
        NothingLast<Effect, Report>(SetsResting(), Unstarted);
      }
    } else {
      var n := |h| - 1;
      var before := h[..n];
      RestingIsTheLast(before);
      RunKeepsSane(before);
      StepRests(Run(before), h[n].0, h[n].1);
      assert Trace(h)[..n] == Trace(before);
      LastOrStep(Trace(h), SetsResting(), Unstarted, Run(h).resting);
    }
  }

  lemma NothingLast<E, T>(sets: E -> Option<T>, first: T)
    ensures LastOr([], sets, first, first)
  {
  }

  /** The root is the stream of the last parentless announce. */
  lemma {:induction false} RootIsTheLast(h: History)
    requires LegalRun(h)
    ensures LastOr(Trace(h), SetsRoot(), None, Run(h).root)
  {
    hide Step, LegalStep, EffectOf, LastOr;
    if h == [] {
      NothingLast<Effect, Option<Id>>(SetsRoot(), None);
    } else {
      var n := |h| - 1;
      var before := h[..n];
      RootIsTheLast(before);
      StepKeepsNames(Run(before), h[n].0, h[n].1);
      RootOfAnnounce(Run(before), h[n].0, h[n].1);
      assert Trace(h)[..n] == Trace(before);
      LastOrStep(Trace(h), SetsRoot(), None, Run(h).root);
    }
  }

  lemma RootOfAnnounce(m: Mode, a: Action, now: Clock)
    ensures SetsRoot()(EffectOf(m, a, now)) ==
      if IsAnnounce(a) && a.frame.event.parent.None? then Some(Some(a.frame.event.id)) else None
  {
    hide Target, TitleFor, Has, Get;
  }

  // ---- what an announce says

  /** `title` is `line`, cut to 60 characters. */
  predicate CutTo60(title: string, line: string) {
    if |line| <= 60 then title == line
    else |title| == 60 && title[..59] == line[..59] && title[59] == '\U{2026}'
  }

  ghost predicate IsFirstLine(line: string, text: string) {
    line <= text && '\n' !in line && (line == text || text[|line|] == '\n')
  }

  /** `core` is `text` without the space around it. */
  ghost predicate IsTrimmed(core: string, text: string) {
    exists lead, trail ::
      && text == lead + core + trail && TreeEntries.AllSpace(lead) && TreeEntries.AllSpace(trail)
      && (core != "" ==> !Previews.IsSpace(core[0]) && !Previews.IsSpace(core[|core| - 1]))
  }

  /** The title says the task's first line, without the space around the task, cut to 60 characters. */
  ghost predicate IsTitleOf(title: string, task: string) {
    exists core, line :: IsTrimmed(core, task) && IsFirstLine(line, core) && CutTo60(title, line)
  }

  lemma {:induction false} FirstLineIs(text: string)
    ensures IsFirstLine(FirstLine(text), text)
  {
    if text != "" && text[0] != '\n' {
      FirstLineIs(text[1..]);
    }
  }

  lemma TrimIs(text: string)
    ensures IsTrimmed(Previews.Trim(text), text)
    ensures Previews.Trim(text) == "" <==> TreeEntries.AllSpace(text)
  {
    hide Previews.IsSpace, Previews.Trim;
    var lead, core, trail := TreeEntries.TrimCuts(text);
    if core != "" {
      assert text[|lead|] == core[0];
    } else {
      assert forall i :: 0 <= i < |text| ==> text[i] == if i < |lead| then lead[i] else trail[i - |lead|];
    }
  }

  lemma TaskTitleIs(task: string)
    ensures TaskTitle(Some(task)).None? <==> TreeEntries.AllSpace(task)
    ensures TaskTitle(Some(task)).Some? ==> IsTitleOf(TaskTitle(Some(task)).value, task)
  {
    hide Previews.Trim, FirstLine, IsTrimmed, IsFirstLine, TreeEntries.AllSpace;
    var core := Previews.Trim(task);
    TrimIs(task);
    FirstLineIs(core);
    if core != "" {
      assert CutTo60(TaskTitle(Some(task)).value, FirstLine(core));
    }
  }

  /** Step `i` announced the stream, and no later step did. */
  ghost predicate AnnouncedAt(h: History, i: nat, id: Id) {
    && i < |h| && IsAnnounce(h[i].0) && h[i].0.frame.event.id == id
    && forall j :: i < j < |h| ==> !(IsAnnounce(h[j].0) && h[j].0.frame.event.id == id)
  }

  /** At the announce the parent, registered then, had made the call with that task. */
  ghost predicate TaskedBy(h: History, e: Event, task: Option<string>)
    requires e.SessionOpened?
  {
    && e.parent.Some? && e.parentCall.Some? && Has(Run(h).streams, e.parent.value)
    && LastLeft(Trace(h), SetsTask(e.parent.value, e.parentCall.value), Some(task))
  }

  /** The title is the task of the call that spawned the stream; there is none where no such call, or no
      task worth a line, is known. */
  ghost predicate TitledBy(h: History, e: Event, title: Option<string>)
    requires e.SessionOpened?
  {
    && (title.Some? <==> exists task :: TaskedBy(h, e, Some(task)) && !TreeEntries.AllSpace(task))
    && (forall task :: title.Some? && TaskedBy(h, e, Some(task)) ==> IsTitleOf(title.value, task))
  }

  lemma LastLeftOnce<E, T>(t: seq<E>, sets: E -> Option<T>, v: T, w: T)
    requires LastLeft(t, sets, v) && LastLeft(t, sets, w)
    ensures v == w
  {
  }

  lemma TaskedIff(h: History, e: Event, task: Option<string>)
    requires LegalRun(h) && e.SessionOpened? && e.parent.Some? && e.parentCall.Some?
    requires Has(Run(h).streams, e.parent.value)
    ensures TaskedBy(h, e, task) <==>
            TaskOf(Get(Run(h).streams, e.parent.value).value, e.parentCall.value) == Some(task)
  {
    hide Run, LegalRun, Trace, TaskOf, SettingsAsTold, LoadAsTold, LastLeft;
    var s := Get(Run(h).streams, e.parent.value).value;
    FactsAreTheLast(h, e.parent.value);
    var sets := SetsTask(e.parent.value, e.parentCall.value);
    assert LastLeft(Trace(h), sets, TaskOf(s, e.parentCall.value));
    if LastLeft(Trace(h), sets, Some(task)) {
      LastLeftOnce(Trace(h), sets, TaskOf(s, e.parentCall.value), Some(task));
    }
  }

  lemma TitleIsTold(h: History, e: Event)
    requires LegalRun(h) && e.SessionOpened?
    ensures TitledBy(h, e, TitleFor(Run(h), e.parent, e.parentCall))
  {
    hide Run, LegalRun, Trace, TaskedBy, TaskTitle, IsTitleOf, TreeEntries.AllSpace;
    UntaskedElse(h, e);
    if e.parent.Some? && e.parentCall.Some? && Has(Run(h).streams, e.parent.value) {
      forall task
        ensures TaskedBy(h, e, task) <==>
                TaskOf(Get(Run(h).streams, e.parent.value).value, e.parentCall.value) == Some(task)
      {
        TaskedIff(h, e, task);
      }
      var held := TaskOf(Get(Run(h).streams, e.parent.value).value, e.parentCall.value);
      NoTaskNoTitle();
      if held.Some? && held.value.Some? {
        TaskTitleIs(held.value.value);
        assert TaskedBy(h, e, held.value);
      }
    }
  }

  lemma NoTaskNoTitle()
    ensures TaskTitle(None) == None
  {
  }

  lemma UntaskedElse(h: History, e: Event)
    requires e.SessionOpened?
    ensures forall task :: TaskedBy(h, e, task) ==>
      e.parent.Some? && e.parentCall.Some? && Has(Run(h).streams, e.parent.value)
  {
    hide Run, Trace, LastLeft;
  }

  /** The stream is what the announce in step `i` says: its names, whether it was resumed, its path and
      directory where they are not empty, and its title. */
  ghost predicate SaysAnnounce(h: History, i: nat, s: Stream)
    requires i < |h| && IsAnnounce(h[i].0)
  {
    var e := h[i].0.frame.event;
    && s.id == e.id && s.parent == e.parent && s.resumed == e.resumed
    && s.path == (if e.path == "" then None else Some(e.path))
    && s.cwd == (if e.cwd == "" then None else Some(e.cwd))
    && TitledBy(h[..i], e, s.title)
  }

  lemma AnnounceEffect(m: Mode, a: Action, now: Clock)
    ensures IsAnnounce(a) <==> EffectOf(m, a, now).Opens?
    ensures IsAnnounce(a) ==>
      var e := a.frame.event;
      EffectOf(m, a, now).announced ==
        Opened(e.id, e.parent, TitleFor(m, e.parent, e.parentCall), e.path, e.cwd, e.resumed)
  {
    hide Target, TitleFor, Has, Get, Opened;
  }

  /** Every registered stream is what its last announce says. */
  lemma AnnounceIs(h: History, id: Id)
    requires LegalRun(h) && Has(Run(h).streams, id)
    ensures exists i: nat :: AnnouncedAt(h, i, id) && SaysAnnounce(h, i, Get(Run(h).streams, id).value)
  {
    hide Run, LegalRun, EffectOf, TitledBy, TitleFor, LoadAsTold, TurnAsTold, Trace;
    var s := Get(Run(h).streams, id).value;
    FactsAreTheLast(h, id);
    var t := Trace(h);
    var i: nat :| LastSets(t, i, SetsAnnounce(id)) && SetsAnnounce(id)(t[i]).value == Announce(s);
    forall j: nat | j < |h|
      ensures t[j] == EffectOf(Run(h[..j]), h[j].0, h[j].1)
      ensures OpensIt(t[j], id) <==> IsAnnounce(h[j].0) && h[j].0.frame.event.id == id
    {
      PrefixOfRun(h, j);
      AnnounceEffect(Run(h[..j]), h[j].0, h[j].1);
    }
    PrefixOfRun(h, i);
    AnnounceEffect(Run(h[..i]), h[i].0, h[i].1);
    TitleIsTold(h[..i], h[i].0.frame.event);
    assert AnnouncedAt(h, i, id) && SaysAnnounce(h, i, s);
  }
}
