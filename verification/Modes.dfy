/** The interactive mode (`mode.ts`) as a pure fold: its streams, root and focus, the open cards, the
    notices on their turn clock, the subagent list it feeds, and what it shows of them. */
module Modes {
  import opened Wrappers
  import opened Assoc
  import opened Streams

  const TRANSIENT_TURNS: nat := 2
  const IDLE_HIDE: int := 60_000
  const PROTOCOL_VERSION: nat := 27

  // ---- what the mode shows

  datatype Footer = Footer(marker: Option<string>, session: Id, path: Option<string>, cwd: Option<string>,
                           selection: Option<Selection>, resumed: bool, spend: Spend, contextUsed: Option<nat>,
                           running: bool, closed: bool, channel: Option<string>)

  datatype Status = Connecting | Compacting | Busy | Checking | Resting

  datatype Report = Unstarted | Done | Troubled(message: string) | Underway | Blocked(title: string)

  datatype Notice = Notice(level: Level, text: string, pinned: bool, born: nat)

  datatype OpenCard = OpenCard(card: Card, stream: Id)

  datatype Row = Row(stream: Id, parent: Id, title: string, activity: Activity, running: bool, idleSince: Option<Clock>)

  datatype Hero = Hero(session: Id, cwd: Option<string>, sessionsOnDisk: Option<nat>, selection: Option<Selection>,
                       skills: seq<Skill>, modelCounts: seq<nat>, extensions: Option<(seq<string>, nat)>)

  /** The mode's fields, with the parts of its view that answer back or that only some folds refresh:
      the hero last shown, the subagent rows last set and which of them show, and the stream whose pane
      takes the notes that name none. */
  datatype Mode = Mode(root: Option<Id>, focused: Option<Id>, streams: Assoc<Id, Stream>,
                       channel: Option<string>, checking: bool, notices: Assoc<string, Notice>, turns: nat,
                       cards: Assoc<Id, OpenCard>, resting: Report,
                       heroActive: bool, sessionsOnDisk: Option<nat>, modelCounts: seq<nat>,
                       extensions: Option<(seq<string>, nat)>, hero: Option<Hero>,
                       rows: seq<Row>, visible: set<Id>, home: Option<Id>)

  const START := Mode(None, None, [], None, false, [], 0, [], Unstarted, false, None, [], None, None, [], {}, None)

  function LabelOf(s: Stream): string {
    if s.title.Some? then s.title.value else s.id
  }

  function FooterOf(root: Option<Id>, channel: Option<string>, s: Stream): Footer {
    Footer(if Some(s.id) == root then None else Some(LabelOf(s)), s.id, s.path, s.cwd, s.selection, s.resumed,
           s.spend, s.contextUsed, s.running, s.closed, channel)
  }

  function StatusOf(checking: bool, s: Stream): Status {
    if s.compacting then Compacting
    else if s.running then Busy
    else if checking then Checking
    else Resting
  }

  predicate Busier(streams: Assoc<Id, Stream>) {
    streams != [] && (streams[0].1.running || streams[0].1.compacting || Busier(streams[1..]))
  }

  function ReportOf(cards: Assoc<Id, OpenCard>, streams: Assoc<Id, Stream>, resting: Report): Report {
    if cards != [] then Blocked(cards[0].1.card.title)
    else if Busier(streams) then Underway
    else resting
  }

  // ---- notices

  function Rank(level: Level): nat {
    match level
    case Severe => 0
    case Warn => 1
    case Info => 2
  }

  function OfRank(notices: Assoc<string, Notice>, rank: nat): seq<Notice> {
    if notices == [] then []
    else (if Rank(notices[0].1.level) == rank then [notices[0].1] else []) + OfRank(notices[1..], rank)
  }

  /** The notices stably sorted by rank. */
  function ByRank(notices: Assoc<string, Notice>): seq<Notice> {
    OfRank(notices, 0) + OfRank(notices, 1) + OfRank(notices, 2)
  }

  /** The notice the dock shows. */
  function Top(notices: Assoc<string, Notice>): Option<Notice> {
    var live := ByRank(notices);
    if live == [] then None else Some(live[0])
  }

  function Overflow(notices: Assoc<string, Notice>): nat {
    if notices == [] then 0 else |notices| - 1
  }

  predicate Expired(n: Notice, turns: nat) {
    !n.pinned && turns - n.born >= TRANSIENT_TURNS
  }

  function Aged(notices: Assoc<string, Notice>, turns: nat): Assoc<string, Notice> {
    if notices == [] then []
    else (if Expired(notices[0].1, turns) then [] else [notices[0]]) + Aged(notices[1..], turns)
  }

  /** A committed live turn ages every transient notice by one. */
  function Ticked(m: Mode): Mode {
    m.(turns := m.turns + 1, notices := Aged(m.notices, m.turns + 1))
  }

  function NoticeKey(stream: Id, notice: string): string {
    stream + "/" + notice
  }

  function Posted(m: Mode, key: string, level: Level, text: string): Mode {
    m.(notices := Put(m.notices, key, Notice(level, text, level == Severe, m.turns)))
  }

  // ---- cards

  /** The cards that are not `stream`'s. */
  function WithoutStream(cards: Assoc<Id, OpenCard>, stream: Id): Assoc<Id, OpenCard> {
    if cards == [] then []
    else (if cards[0].1.stream == stream then [] else [cards[0]]) + WithoutStream(cards[1..], stream)
  }

  predicate AwaitedBy(cards: Assoc<Id, OpenCard>, stream: Id) {
    cards != [] && (cards[0].1.stream == stream || AwaitedBy(cards[1..], stream))
  }

  // ---- the subagent list

  function RowOf(s: Stream, cards: Assoc<Id, OpenCard>): Row
    requires s.parent.Some?
  {
    Row(s.id, s.parent.value, if s.title.Some? then s.title.value else "subagent",
        ActivityOf(s, AwaitedBy(cards, s.id)), s.running,
        if s.running || s.terminal.None? then None else Some(s.terminalAt))
  }

  /** Every child stream's row, in registration order. */
  function RowsOf(streams: Assoc<Id, Stream>, cards: Assoc<Id, OpenCard>): seq<Row> {
    if streams == [] then []
    else (if streams[0].1.parent.Some? then [RowOf(streams[0].1, cards)] else []) + RowsOf(streams[1..], cards)
  }

  predicate Shows(r: Row, now: Clock) {
    r.running || r.idleSince.None? || now - r.idleSince.value < IDLE_HIDE
  }

  function VisibleIn(rows: seq<Row>, now: Clock): set<Id> {
    set r | r in rows && Shows(r, now) :: r.stream
  }

  // ---- the sweep

  /** A closed stream nobody can reach: a child that is neither focused nor on the list. */
  predicate Unreachable(s: Stream, focused: Option<Id>, visible: set<Id>) {
    s.closed && s.parent.Some? && Some(s.id) != focused && s.id !in visible
  }

  function Swept(streams: Assoc<Id, Stream>, focused: Option<Id>, visible: set<Id>): Assoc<Id, Stream> {
    if streams == [] then []
    else
      (if Unreachable(streams[0].1, focused, visible) then [] else [streams[0]])
      + Swept(streams[1..], focused, visible)
  }

  function Sweep(m: Mode): Mode {
    m.(streams := Swept(m.streams, m.focused, m.visible))
  }

  /** The list filters its rows again; a row that hid sets off the sweep. */
  function Reprojected(m: Mode, now: Clock): Mode {
    var shown := VisibleIn(m.rows, now);
    if m.visible <= shown then m.(visible := shown) else Sweep(m.(visible := shown))
  }

  function Relisted(m: Mode, now: Clock): Mode {
    Reprojected(m.(rows := RowsOf(m.streams, m.cards)), now)
  }

  // ---- the hero

  function HeroOf(m: Mode, root: Stream): Hero {
    Hero(root.id, root.cwd, m.sessionsOnDisk, root.selection, root.skills, m.modelCounts,
         if m.extensions.Some? && m.extensions.value == ([], 0) then None else m.extensions)
  }

  function HeroShown(m: Mode): Mode {
    if m.heroActive && m.root.Some? && Has(m.streams, m.root.value)
    then m.(hero := Some(HeroOf(m, Get(m.streams, m.root.value).value)))
    else m
  }

  // ---- frames

  datatype Frame =
    | Version(version: nat)
    | CatalogStatus
    | ProtocolError
    | Unknown
    | Wire(stream: Option<Id>, event: Event)

  predicate IsGlobal(e: Event) {
    e.SessionsAvailable? || e.ModelsAvailable? || e.ProvidersAvailable? || e.ExtensionsAvailable?
  }

  predicate IsNotice(e: Event) {
    e.Noticed? || e.NoticeCleared?
  }

  /** The startup failure: an unstamped `startup` notice at error level before any root. */
  predicate IsStartupFailure(m: Mode, f: Frame) {
    && f.Wire? && f.stream.None? && f.event.Noticed? && f.event.notice == "startup"
    && f.event.level == Severe && m.root.None?
  }

  /** The registered stream that folds an event: its stamp's, else (unstamped) a close's own stream or
      the root. */
  function Target(m: Mode, stream: Option<Id>, e: Event): (id: Option<Id>)
    ensures id.Some? ==> Has(m.streams, id.value)
  {
    var named := if stream.Some? then stream else if e.SessionClosed? then Some(e.id) else m.root;
    if named.Some? && Has(m.streams, named.value) then named else None
  }

  /** The wire's announce contract: a child is announced once, and nothing reaches a stream after its
      close. */
  predicate Announces(m: Mode, f: Frame) {
    f.Wire? && !IsGlobal(f.event) && !IsStartupFailure(m, f) ==>
      if f.event.SessionOpened? then f.event.parent.Some? ==> !Has(m.streams, f.event.id)
      else
        var target := Target(m, f.stream, f.event);
        target.Some? && !(f.stream.None? && IsNotice(f.event)) ==> !Get(m.streams, target.value).value.closed
  }

  /** The wire's checkout contract: a checkout names an entry of its stream's session tree. */
  predicate ChecksOut(m: Mode, f: Frame) {
    f.Wire? && Target(m, f.stream, f.event).Some? ==>
      ChecksOutKnown(Get(m.streams, Target(m, f.stream, f.event).value).value, f.event)
  }

  /** What the wire is trusted for. */
  predicate Legal(m: Mode, f: Frame) {
    Announces(m, f) && ChecksOut(m, f)
  }

  /** The handler of the event throws half-way, on the stream that folds it. */
  ghost predicate ThrowsAt(m: Mode, id: Id, e: Event) {
    Has(m.streams, id) && Throws(Get(m.streams, id).value, e)
  }

  function TitleFor(m: Mode, parent: Option<Id>, call: Option<Id>): Option<string> {
    if parent.None? || call.None? then None
    else match Get(m.streams, parent.value)
      case None => None
      case Some(p) => if call.value in p.tasks then TaskTitle(p.tasks[call.value]) else None
  }

  /** The view shows a stream; the first one it ever shows is home to the notes that name none. */
  function ShownStream(m: Mode, id: Id): Mode {
    m.(focused := Some(id), home := if m.home.None? then Some(id) else m.home)
  }

  /** A stream's own announce: it registers, and a parentless one becomes root and takes the focus. */
  function Announced(m: Mode, id: Id, parent: Option<Id>, call: Option<Id>, path: string, cwd: string,
                     resumed: bool): Mode {
    var s := Opened(id, parent, TitleFor(m, parent, call), path, cwd, resumed);
    var m1 := m.(streams := Put(m.streams, id, s), heroActive := parent.None? && !resumed);
    if parent.Some? then m1
    else HeroShown(ShownStream(m1.(root := Some(id)), id))
  }

  function FoldGlobal(m: Mode, e: Event): Mode {
    match e
    case SessionsAvailable(count) => HeroShown(m.(sessionsOnDisk := Some(count)))
    case ExtensionsAvailable(names, dead) => HeroShown(m.(extensions := Some((names, dead))))
    case ModelsAvailable(counts) => HeroShown(m.(modelCounts := counts))
    case ProvidersAvailable(channel) => m.(checking := false, channel := Some(channel))
    case _ => m
  }

  /** What an event changes beside its own stream; `s` is the stream before it. */
  function Aside(m: Mode, s: Stream, e: Event): Mode {
    match e
    case RunFinished => m.(resting := Done, cards := WithoutStream(m.cards, s.id))
    case RunAborted => m.(resting := Unstarted, cards := WithoutStream(m.cards, s.id))
    case RunFailed(message) => m.(resting := Troubled(FirstLine(message)))
    case TurnCommitted => if s.replaying then m else Ticked(m)
    case Noticed(notice, level, text) => Posted(m, NoticeKey(s.id, notice), level, text)
    case NoticeCleared(notice) => m.(notices := Delete(m.notices, NoticeKey(s.id, notice)))
    case SkillsAvailable(_) => if Some(s.id) == m.root then HeroShown(m) else m
    case SessionClosed(_) => Sweep(m)
    case ModelSelected(_) => HeroShown(m)
    case InteractionRequest(request, uiType, payload) =>
      (match ParseCard(request, uiType, payload)
       case None => m
       case Some(card) => m.(cards := Put(m.cards, card.id, OpenCard(card, s.id))))
    case InteractionSettled(request) => m.(cards := Delete(m.cards, request))
    case CompactionEnd(_) => m.(resting := Done)
    case CompactionFailed(message) => m.(resting := Troubled(FirstLine(message)))
    case _ => m
  }

  ghost function FoldAt(m: Mode, id: Id, e: Event, now: Clock): Mode {
    match Get(m.streams, id)
    case None => m
    case Some(s) => Aside(m.(streams := Put(m.streams, id, FoldStream(s, e, now))), s, e)
  }

  ghost function FoldWire(m: Mode, stream: Option<Id>, e: Event, now: Clock): Mode {
    if e.SessionOpened? then
      Relisted(Announced(m, e.id, e.parent, e.parentCall, e.path, e.cwd, e.resumed), now)
    else if IsGlobal(e) then FoldGlobal(m, e)
    else if stream.None? && e.Noticed? then Posted(m, e.notice, e.level, e.text)
    else if stream.None? && e.NoticeCleared? then m.(notices := Delete(m.notices, e.notice))
    else match Target(m, stream, e)
      case None => m
      // a handler that throws takes the list's turn with it
      case Some(id) => if ThrowsAt(m, id, e) then FoldAt(m, id, e, now) else Relisted(FoldAt(m, id, e, now), now)
  }

  ghost function Fold(m: Mode, f: Frame, now: Clock): Mode {
    match f
    case CatalogStatus => m.(checking := true)
    case Wire(stream, e) => if IsStartupFailure(m, f) then m else FoldWire(m, stream, e, now)
    case _ => m
  }

  /** The frame's handler throws half-way: the list and the program status are not told. */
  ghost predicate FrameThrows(m: Mode, f: Frame) {
    && f.Wire? && !IsStartupFailure(m, f) && !f.event.SessionOpened? && !IsGlobal(f.event)
    && !(f.stream.None? && IsNotice(f.event))
    && Target(m, f.stream, f.event).Some? && ThrowsAt(m, Target(m, f.stream, f.event).value, f.event)
  }

  // ---- user actions

  function FocusOn(m: Mode, id: Id): Mode {
    if Some(id) == m.focused || !Has(m.streams, id) then m
    else Sweep(ShownStream(m, id))
  }

  /** Where Esc walks from a stream that is not the root. */
  function EscapeTarget(m: Mode, s: Stream): Id {
    if s.parent.Some? then s.parent.value
    else if m.root.Some? then m.root.value
    else s.id
  }

  function FocusedStream(m: Mode): Option<Stream> {
    if m.focused.None? then None else Get(m.streams, m.focused.value)
  }

  function Escaped(m: Mode): Mode {
    match FocusedStream(m)
    case None => m
    case Some(s) => if Some(s.id) == m.root then m else FocusOn(m, EscapeTarget(m, s))
  }

  function AnswerCard(m: Mode, request: Id, now: Clock): Mode {
    if !Has(m.cards, request) then m
    else Relisted(m.(cards := Delete(m.cards, request)), now)
  }

  /** Everything that happens to a mode: a frame arrives, the user moves the focus, presses Esc or
      answers a card, or the list's hide clock runs out. */
  datatype Action = Arrives(frame: Frame) | Focuses(stream: Id) | PressesEscape | Answers(request: Id) | ClockRings

  ghost function Step(m: Mode, a: Action, now: Clock): Mode {
    match a
    case Arrives(f) => Fold(m, f, now)
    case Focuses(id) => FocusOn(m, id)
    case PressesEscape => Escaped(m)
    case Answers(request) => AnswerCard(m, request, now)
    case ClockRings => Reprojected(m, now)
  }

  predicate LegalStep(m: Mode, a: Action) {
    a.Arrives? ==> Legal(m, a.frame)
  }
}
