/** One stream of the interactive mode (`mode.ts`, class StreamState): its session facts, run state,
    queue and skills, its session tree, and how each wire event folds into them. */
module Streams {
  import opened Wrappers
  import opened Assoc
  import opened Previews
  import Forests
  import Trees
  import SessionTrees

  type Id = string
  type Clock = int

  datatype Level = Info | Warn | Severe

  /** The thinking dial: not stated, the provider's default, or a named level. */
  datatype Dial = Unstated | Default | Named(name: string)

  datatype Rates = Rates(input: real, output: real, cacheRead: real, cacheWrite: real)

  datatype Selection = Selection(provider: string, model: string, name: Option<string>, dial: Dial,
                                 window: Option<nat>, rates: Option<Rates>)

  datatype Usage = Usage(input: nat, output: nat, total: nat, cached: nat, created: nat)

  /** The usage sums, and the latest request's hit rate in percent. */
  datatype Spend = Spend(input: nat, output: nat, cached: nat, created: nat, hitRate: Option<real>, cost: Option<real>)

  const NOTHING_SPENT := Spend(0, 0, 0, 0, None, None)

  datatype Pending = Pending(id: Id, text: string)

  datatype Skill = Skill(name: string, description: string)

  datatype Terminal = Completed | Failed | Aborted | Closed

  datatype Delta = Text | Reasoning

  /** What a card's payload parses to: nothing usable, or its fields; an option without a text label is
      `None`. */
  datatype Payload = NotAnObject | Fields(title: Option<string>, body: Option<string>,
                                          options: seq<Option<string>>, freeText: bool)

  datatype Card = Card(id: Id, uiType: string, title: string, body: string, options: seq<string>, freeText: bool)

  /** The wire events. A tool call carries its arguments' `task` field when they parse to an object
      with one. */
  datatype Event =
    | SessionOpened(id: Id, parent: Option<Id>, parentCall: Option<Id>, path: string, cwd: string, resumed: bool)
    | UserMessage(entry: Id, text: string)
    | RunFinished
    | RunAborted
    | RunFailed(message: string)
    | MessageQueued(queued: Pending)
    | MessagesDiscarded
    | TurnStarted(turn: Id)
    | TextDelta(turn: Id, text: string)
    | ReasoningDelta
    | TurnCommitted
    | TurnRetried(turn: Id)
    | TurnTruncated
    | ToolCalled(call: Id, made: ToolCall, task: Option<string>)
    | ToolResult(entry: Id, call: Id, tool: string)
    | CompletionCall(usage: Usage, cost: Option<real>)
    | NativeItem
    | Noticed(notice: string, level: Level, text: string)
    | NoticeCleared(notice: string)
    | ReplayBegin
    | ReplayEnd
    | CheckedOut(entry: Id)
    | SkillsAvailable(skills: seq<Skill>)
    | SessionClosed(id: Id)
    | ModelSelected(selection: Selection)
    | InteractionRequest(request: Id, uiType: string, payload: Payload)
    | InteractionSettled(request: Id)
    | CompactionBegin
    | CompactionDelta
    | CompactionStep(entry: Id, usage: Usage, cost: Option<real>)
    | CompactionRetried
    | CompactionEnd(after: nat)
    | CompactionFailed(message: string)
    | SessionsAvailable(count: nat)
    | ModelsAvailable(modelCounts: seq<nat>)
    | ProvidersAvailable(channel: string)
    | ExtensionsAvailable(names: seq<string>, dead: nat)

  datatype Stream = Stream(id: Id, parent: Option<Id>, title: Option<string>, selection: Option<Selection>,
                           path: Option<string>, cwd: Option<string>, resumed: bool, spend: Spend,
                           contextUsed: Option<nat>, running: bool, compacting: bool, compactionFrom: Option<nat>,
                           closed: bool, terminal: Option<Terminal>, terminalAt: Clock, replaying: bool,
                           pending: seq<Pending>, skills: seq<Skill>, openCalls: Assoc<Id, string>,
                           tasks: map<Id, Option<string>>, lastDelta: Option<Delta>,
                           tree: Trees.Tree)

  function NonEmpty(text: string): Option<string> {
    if text == "" then None else Some(text)
  }

  /** A stream as its announce leaves it. */
  function Opened(id: Id, parent: Option<Id>, title: Option<string>, path: string, cwd: string, resumed: bool): Stream {
    Stream(id, parent, title, None, NonEmpty(path), NonEmpty(cwd), resumed, NOTHING_SPENT, None, false, false, None,
           false, None, 0, false, [], [], [], map[], None, Trees.Empty)
  }

  /** A stream with every per-session fact started over. */
  function Reset(s: Stream, path: string, cwd: string, resumed: bool): Stream {
    Stream(s.id, s.parent, s.title, None, NonEmpty(path), NonEmpty(cwd), resumed, NOTHING_SPENT, None, s.running,
           s.compacting, s.compactionFrom, s.closed, s.terminal, s.terminalAt, s.replaying, s.pending, [], s.openCalls,
           s.tasks, s.lastDelta, s.tree)
  }

  const TITLE_LIMIT := 60

  function FirstLine(text: string): string {
    if text == "" || text[0] == '\n' then "" else [text[0]] + FirstLine(text[1..])
  }

  function TaskTitle(task: Option<string>): Option<string> {
    if task.None? || Trim(task.value) == "" then None
    else
      var line := FirstLine(Trim(task.value));
      Some(if |line| > TITLE_LIMIT then line[..TITLE_LIMIT - 1] + [ELLIPSIS] else line)
  }

  function Percent(part: nat, whole: nat): real
    requires whole > 0
  {
    part as real / whole as real * 100.0
  }

  /** One request's usage added to the sums. */
  function Metered(s: Spend, u: Usage, cost: Option<real>): Spend {
    var prompt := u.input + u.cached + u.created;
    Spend(s.input + u.input, s.output + u.output, s.cached + u.cached, s.created + u.created,
          if prompt > 0 then Some(Percent(u.cached, prompt)) else None,
          if cost.None? then s.cost
          else Some((if s.cost.Some? then s.cost.value else 0.0) + cost.value))
  }

  function Unqueued(pending: seq<Pending>, entry: Id): seq<Pending> {
    if pending == [] then []
    else (if pending[0].id == entry then [] else [pending[0]]) + Unqueued(pending[1..], entry)
  }

  function Started(s: Stream): Stream {
    s.(running := true, terminal := None)
  }

  function Ended(s: Stream, how: Terminal, now: Clock): Stream {
    s.(running := false, terminal := Some(how), terminalAt := now)
  }

  /** A stream its spawner vouched dead: no run, no compaction, an empty queue. */
  function Shut(s: Stream, now: Clock): Stream {
    Stream(s.id, s.parent, s.title, s.selection, s.path, s.cwd, s.resumed, s.spend, s.contextUsed, false, false,
           s.compactionFrom, true, Some(Closed), now, s.replaying, [], s.skills, s.openCalls, s.tasks, s.lastDelta,
           s.tree)
  }

  // ---- the session tree

  /** What an event means for the stream's session tree. */
  function TreeStep(e: Event): Option<Trees.Step> {
    match e
    case UserMessage(entry, text) => Some(Trees.AddUser(entry, text))
    case TurnStarted(turn) => Some(Trees.StartTurn(turn))
    case TextDelta(turn, text) => Some(Trees.TurnText(turn, text))
    case TurnRetried(turn) => Some(Trees.DiscardTurn(turn))
    case ToolCalled(call, made, _) => Some(Trees.NoteToolCall(call, made))
    case ToolResult(entry, call, tool) => Some(Trees.ToolResult(entry, call, tool))
    case ReplayBegin => Some(Trees.CloseTurn)
    case CheckedOut(entry) => Some(Trees.MoveHead(entry))
    case CompactionStep(entry, usage, _) => Some(Trees.AddCompaction(entry, usage.total))
    case _ => None
  }

  ghost function Grown(t: Trees.Tree, e: Event): Trees.Tree {
    match TreeStep(e)
    case None => t
    case Some(step) => Trees.Leaves(t, step)
  }

  /** The tree throws at the event, and its handler with it. */
  ghost predicate Throws(s: Stream, e: Event) {
    TreeStep(e).Some? && Trees.Throws(s.tree, TreeStep(e).value)
  }

  // ---- the fold

  /** What a handler has done to the other facts by the time the tree throws. */
  function Begun(s: Stream, e: Event): Stream {
    if e.UserMessage? && !s.replaying then Started(s) else s
  }

  /** One event folded into its stream, as far as its handler gets. */
  ghost function FoldStream(s: Stream, e: Event, now: Clock): Stream {
    (if Throws(s, e) then Begun(s, e) else FoldFacts(s, e, now)).(tree := Grown(s.tree, e))
  }

  /** The event folded into the facts beside the tree. Events that touch none of them leave them alone. */
  function FoldFacts(s: Stream, e: Event, now: Clock): Stream {
    match e
    case UserMessage(entry, _) => (if s.replaying then s else Started(s)).(pending := Unqueued(s.pending, entry))
    case RunFinished => Ended(s, Completed, now)
    case RunAborted => Ended(s, Aborted, now)
    case RunFailed(_) => Ended(s, Failed, now)
    case MessageQueued(queued) => s.(pending := s.pending + [queued])
    case MessagesDiscarded => s.(pending := [])
    case TurnStarted(_) => (if s.replaying || s.running then s else Started(s)).(lastDelta := None)
    case TextDelta(_, _) => s.(lastDelta := Some(Text))
    case ReasoningDelta => s.(lastDelta := Some(Reasoning))
    case ToolCalled(call, made, task) =>
      s.(openCalls := Put(s.openCalls, call, made.name), tasks := s.tasks[call := task])
    case ToolResult(_, call, _) => s.(openCalls := Delete(s.openCalls, call))
    case CompletionCall(usage, cost) => s.(spend := Metered(s.spend, usage, cost), contextUsed := Some(usage.total))
    case ReplayBegin => s.(replaying := true)
    case ReplayEnd => s.(replaying := false)
    case SkillsAvailable(skills) => s.(skills := skills)
    case SessionClosed(_) => Shut(s, now)
    case ModelSelected(selection) => s.(selection := Some(selection))
    case CompactionBegin => s.(compacting := true, compactionFrom := s.contextUsed)
    case CompactionStep(_, usage, cost) => s.(spend := Metered(s.spend, usage, cost), contextUsed := Some(usage.total))
    case CompactionEnd(after) => s.(compacting := false, contextUsed := Some(after), compactionFrom := None)
    case CompactionFailed(_) => s.(compacting := false, compactionFrom := None)
    case _ => s
  }

  function Labels(options: seq<Option<string>>): seq<string> {
    if options == [] then []
    else (if options[0].Some? then [options[0].value] else []) + Labels(options[1..])
  }

  /** The two native card templates; anything else, and a card nobody could answer, is no card. */
  function ParseCard(id: Id, uiType: string, payload: Payload): (card: Option<Card>)
    ensures card.Some? ==> card.value.id == id && (card.value.options != [] || card.value.freeText)
  {
    if uiType != "native:select_one" && uiType != "native:select_any" then None
    else if payload.NotAnObject? then None
    else
      var options := Labels(payload.options);
      if options == [] && !payload.freeText then None
      else Some(Card(id, uiType, if payload.title.Some? then payload.title.value else "(untitled ask)",
                     if payload.body.Some? then payload.body.value else "", options, payload.freeText))
  }

  /** The activity word of a subagent's row. */
  datatype Activity = Waiting | Calling(tool: string) | Tools(count: nat) | Thinking | Working | Rested(how: Terminal)
    | Unused

  function ActivityOf(s: Stream, waiting: bool): Activity {
    if waiting then Waiting
    else if |s.openCalls| == 1 then Calling(s.openCalls[0].1)
    else if s.openCalls != [] then Tools(|s.openCalls|)
    else if s.running then (if s.lastDelta == Some(Reasoning) then Thinking else Working)
    else if s.terminal.Some? then Rested(s.terminal.value) else Unused
  }

  /** A closed stream neither runs nor compacts, queues nothing, and shows its close as its end. */
  predicate Quiet(s: Stream) {
    s.closed ==> !s.running && !s.compacting && s.pending == [] && s.terminal == Some(Closed)
  }

  /** What every stream is under the wire's contract: its session tree is a good one, too. */
  ghost predicate AtRest(s: Stream) {
    Quiet(s) && Trees.Good(s.tree)
  }

  /** The contract of a checkout: it names an entry of the stream's tree. */
  predicate ChecksOutKnown(s: Stream, e: Event) {
    e.CheckedOut? ==> e.entry in s.tree.nodes
  }

  lemma OpenedAtRest(id: Id, parent: Option<Id>, title: Option<string>, path: string, cwd: string, resumed: bool)
    ensures AtRest(Opened(id, parent, title, path, cwd, resumed))
  {
    hide Trees.Good;
    Trees.EmptyIsGood();
  }

  /** Under that contract no handler throws, and the tree stays good. */
  lemma TreeStaysGood(s: Stream, e: Event)
    requires Trees.Good(s.tree)
    ensures !Throws(s, e)
    ensures ChecksOutKnown(s, e) ==> Trees.Good(Grown(s.tree, e))
  {
    hide Trees.Good, Trees.Leaves, Trees.Throws;
    if TreeStep(e).Some? {
      Trees.LeavesGood(s.tree, TreeStep(e).value);
    }
  }

  /** An event without meaning for the tree folds into the facts alone. */
  lemma Treeless(s: Stream, e: Event, now: Clock)
    requires TreeStep(e).None?
    ensures !Throws(s, e) && FoldStream(s, e, now) == FoldFacts(s, e, now).(tree := s.tree)
  {
    hide FoldFacts;
  }

  /** What the events that cannot throw make of the tree. */
  lemma GrownIs(t: Trees.Tree, e: Event)
    ensures e.TextDelta? ==> Grown(t, e) == Trees.AppendTurnText(t, e.turn, e.text)
    ensures e.ToolCalled? ==> Grown(t, e) == t.(calls := t.calls[e.call := e.made])
    ensures e.ReplayBegin? ==> Grown(t, e) == t.(openTurn := None)
    ensures e.CheckedOut? ==> Grown(t, e) == Trees.Checkout(t, e.entry)
    ensures e.TurnRetried? && Trees.WellFormed(t) ==>
      Forests.Acyclic(t.nodes) && Grown(t, e) == Trees.RetryTurn(t, e.turn)
  {
    if Trees.WellFormed(t) {
      Trees.WellFormedIsAcyclic(t);
    }
    hide Trees.WellFormed, Trees.RetryTurn, Trees.AppendTurnText, Trees.Checkout, Forests.Acyclic;
  }

  /** What no event changes, and what only one event does. */
  lemma FactsKept(s: Stream, e: Event, now: Clock)
    requires Quiet(s) && !s.closed
    ensures var t := FoldFacts(s, e, now);
      && Quiet(t) && t.id == s.id && t.parent == s.parent && t.title == s.title && t.cwd == s.cwd
      && (t.closed <==> e.SessionClosed?)
      && (e.ModelSelected? || t.selection == s.selection)
      && (e.SkillsAvailable? || t.skills == s.skills)
  {
    hide Metered, Unqueued, Put, Delete;
  }

  lemma FoldStreamKeeps(s: Stream, e: Event, now: Clock)
    requires AtRest(s) && !s.closed && ChecksOutKnown(s, e)
    ensures var t := FoldStream(s, e, now);
      && AtRest(t) && t.id == s.id && t.parent == s.parent && t.title == s.title && t.cwd == s.cwd
      && (t.closed <==> e.SessionClosed?)
      && (e.ModelSelected? || t.selection == s.selection)
      && (e.SkillsAvailable? || t.skills == s.skills)
      && t == FoldFacts(s, e, now).(tree := Grown(s.tree, e))
  {
    hide FoldFacts, Grown, Throws, Trees.Good;
    TreeStaysGood(s, e);
    FactsKept(s, e, now);
  }

  /** A stream's fields, updated in place. The session tree is held as a value and lent to an object of
      its own class for every operation on it. */
  class StreamState {
    const id: Id
    const parent: Option<Id>
    var title: Option<string>
    var selection: Option<Selection>
    var path: Option<string>
    var cwd: Option<string>
    var resumed: bool
    var spend: Spend
    var contextUsed: Option<nat>
    var running: bool
    var compacting: bool
    var compactionFrom: Option<nat>
    var closed: bool
    var terminal: Option<Terminal>
    var terminalAt: Clock
    var replaying: bool
    var pending: seq<Pending>
    var skills: seq<Skill>
    var openCalls: Assoc<Id, string>
    var tasks: map<Id, Option<string>>
    var lastDelta: Option<Delta>
    var tree: Trees.Tree

    function Value(): Stream
      reads this
    {
      Stream(id, parent, title, selection, path, cwd, resumed, spend, contextUsed, running, compacting, compactionFrom,
             closed, terminal, terminalAt, replaying, pending, skills, openCalls, tasks, lastDelta, tree)
    }

    constructor (id: Id, parent: Option<Id>)
      ensures this.id == id && this.parent == parent
      ensures Value() == Opened(id, parent, None, "", "", false)
    {
      this.id, this.parent := id, parent;
      title, selection, path, cwd, resumed := None, None, None, None, false;
      spend, contextUsed := NOTHING_SPENT, None;
      running, compacting, compactionFrom, closed, terminal, terminalAt := false, false, None, false, None, 0;
      replaying, pending, skills, openCalls, tasks, lastDelta := false, [], [], [], map[], None;
      tree := Trees.Empty;
    }

    /** The fields the handlers ask about. */
    lemma Fields()
      ensures var v := Value();
        && v.id == id && v.parent == parent && v.running == running && v.compacting == compacting && v.closed == closed
        && v.replaying == replaying && v.pending == pending && v.skills == skills && v.contextUsed == contextUsed
        && v.tree == tree
    {
    }

    /** The part of `session_opened` that belongs to the stream: every per-session fact starts over. */
    method Open(path: string, cwd: string, resumed: bool)
      modifies this
      ensures Value() == Reset(old(Value()), path, cwd, resumed)
    {
      Relocate(path, cwd, resumed);
      ForgetUsage();
      LearnSkills([]);
    }

    method Relocate(path: string, cwd: string, resumed: bool)
      modifies this
      ensures Value() == old(Value()).(path := NonEmpty(path), cwd := NonEmpty(cwd), resumed := resumed)
    {
      this.path := if path == "" then None else Some(path);
      this.cwd := if cwd == "" then None else Some(cwd);
      this.resumed := resumed;
    }

    method ForgetUsage()
      modifies this
      ensures Value() == old(Value()).(selection := None, spend := NOTHING_SPENT, contextUsed := None)
    {
      selection := None;
      spend := NOTHING_SPENT;
      contextUsed := None;
    }

    method StartRun()
      modifies this
      ensures Value() == Started(old(Value()))
    {
      running := true;
      terminal := None;
    }

    method EndRun(how: Terminal, now: Clock)
      modifies this
      ensures Value() == Ended(old(Value()), how, now)
    {
      running := false;
      terminal := Some(how);
      terminalAt := now;
    }

    /** `queued`: there was a queue to drop. */
    method Close(now: Clock) returns (queued: bool)
      modifies this
      ensures Value() == Shut(old(Value()), now)
      ensures queued <==> old(pending) != []
    {
      Fields();
      Seal();
      EndRun(Closed, now);
      Fields();
      queued := pending != [];
      if queued {
        DropQueue();
      }
    }

    method Seal()
      modifies this
      ensures Value() == old(Value()).(closed := true, compacting := false)
    {
      closed := true;
      compacting := false;
    }

    method Enqueue(message: Pending)
      modifies this
      ensures Value() == old(Value()).(pending := old(pending) + [message])
    {
      pending := pending + [message];
    }

    method DropQueue()
      modifies this
      ensures Value() == old(Value()).(pending := [])
    {
      pending := [];
    }

    /** The queue loses the entry that a user message delivered. */
    method Deliver(entry: Id) returns (changed: bool)
      modifies this
      ensures Value() == old(Value()).(pending := Unqueued(old(pending), entry))
      ensures !changed ==> pending == old(pending)
    {
      var next := WithoutEntry(entry);
      UnqueuedShorter(pending, entry);
      changed := |next| != |pending|;
      if changed {
        pending := next;
      }
    }

    method WithoutEntry(entry: Id) returns (next: seq<Pending>)
      ensures next == Unqueued(pending, entry)
    {
      next := [];
      for i := 0 to |pending|
        invariant next + Unqueued(pending[i..], entry) == Unqueued(pending, entry)
      {
        assert pending[i..][1..] == pending[i + 1..];
        if pending[i].id != entry {
          next := next + [pending[i]];
        }
      }
    }

    method NoteDelta(delta: Option<Delta>)
      modifies this
      ensures Value() == old(Value()).(lastDelta := delta)
    {
      lastDelta := delta;
    }

    method NoteCall(call: Id, tool: string, task: Option<string>)
      modifies this
      ensures Value() == old(Value()).(openCalls := Put(old(openCalls), call, tool), tasks := old(tasks)[call := task])
    {
      openCalls := Put(openCalls, call, tool);
      tasks := tasks[call := task];
    }

    method NoteResult(call: Id)
      modifies this
      ensures Value() == old(Value()).(openCalls := Delete(old(openCalls), call))
    {
      openCalls := Delete(openCalls, call);
    }

    method Meter(usage: Usage, cost: Option<real>)
      modifies this
      ensures Value() == old(Value()).(spend := Metered(old(spend), usage, cost), contextUsed := Some(usage.total))
    {
      var prompt := usage.input + usage.cached + usage.created;
      var sums := spend.(input := spend.input + usage.input, output := spend.output + usage.output,
                         cached := spend.cached + usage.cached, created := spend.created + usage.created,
                         hitRate := if prompt > 0 then Some(Percent(usage.cached, prompt)) else None);
      if cost.Some? {
        sums := sums.(cost := Some((if sums.cost.Some? then sums.cost.value else 0.0) + cost.value));
      }
      assert sums == Metered(spend, usage, cost);
      hide Metered;
      spend := sums;
      contextUsed := Some(usage.total);
    }

    // ---- the tree

    method EnterUser(entry: Id, text: string) returns (threw: bool)
      modifies this`tree
      ensures Value() == old(Value()).(tree := Trees.Leaves(old(tree), Trees.AddUser(entry, text)))
      ensures threw <==> Trees.Throws(old(tree), Trees.AddUser(entry, text))
    {
      hide Trees.Leaves, Trees.Throws, Trees.Enter, Trees.OpenTurn, Trees.AddTool;
      var t := new SessionTrees.SessionTree.Holding(tree);
      threw := t.AddUser(entry, text);
      tree := t.View();
    }

    method StartTurn(turn: Id) returns (threw: bool)
      modifies this`tree
      ensures Value() == old(Value()).(tree := Trees.Leaves(old(tree), Trees.StartTurn(turn)))
      ensures threw <==> Trees.Throws(old(tree), Trees.StartTurn(turn))
    {
      hide Trees.Leaves, Trees.Throws, Trees.Enter, Trees.OpenTurn, Trees.AddTool;
      var t := new SessionTrees.SessionTree.Holding(tree);
      threw := t.OpenTurn(turn);
      tree := t.View();
    }

    method EnterResult(entry: Id, call: Id, tool: string) returns (threw: bool)
      modifies this`tree
      ensures Value() == old(Value()).(tree := Trees.Leaves(old(tree), Trees.ToolResult(entry, call, tool)))
      ensures threw <==> Trees.Throws(old(tree), Trees.ToolResult(entry, call, tool))
    {
      hide Trees.Leaves, Trees.Throws, Trees.Enter, Trees.OpenTurn, Trees.AddTool;
      var t := new SessionTrees.SessionTree.Holding(tree);
      threw := t.AddTool(entry, call, tool);
      tree := t.View();
    }

    method EnterCompaction(entry: Id, total: nat) returns (threw: bool)
      modifies this`tree
      ensures Value() == old(Value()).(tree := Trees.Leaves(old(tree), Trees.AddCompaction(entry, total)))
      ensures threw <==> Trees.Throws(old(tree), Trees.AddCompaction(entry, total))
    {
      hide Trees.Leaves, Trees.Throws, Trees.Enter, Trees.OpenTurn, Trees.AddTool;
      var t := new SessionTrees.SessionTree.Holding(tree);
      threw := t.AddCompaction(entry, total);
      tree := t.View();
    }

    /** The operations that never throw. */
    method Grow(e: Event)
      requires e.TextDelta? || e.ToolCalled? || e.ReplayBegin? || e.CheckedOut? || e.TurnRetried?
      requires Trees.WellFormed(tree)
      modifies this`tree
      ensures Value() == old(Value()).(tree := Grown(old(tree), e))
    {
      hide Grown, Trees.WellFormed;
      var t := new SessionTrees.SessionTree.Holding(tree);
      GrowTree(t, e);
      tree := t.View();
    }

    method GrowTree(t: SessionTrees.SessionTree, e: Event)
      requires e.TextDelta? || e.ToolCalled? || e.ReplayBegin? || e.CheckedOut? || e.TurnRetried?
      requires Trees.WellFormed(t.View())
      modifies t
      ensures t.View() == Grown(old(t.View()), e)
    {
      GrownIs(t.View(), e);
      hide Grown, Trees.WellFormed, Trees.RetryTurn, Trees.AppendTurnText, Trees.Checkout;
      match e {
        case TextDelta(turn, text) => t.AppendTurnText(turn, text);
        case ToolCalled(call, made, _) => t.NoteToolCall(call, made);
        case ReplayBegin => t.CloseTurn();
        case CheckedOut(entry) => t.Checkout(entry);
        case TurnRetried(turn) => t.RetryTurn(turn);
      }
    }

    method Replay(begins: bool)
      modifies this
      ensures Value() == old(Value()).(replaying := begins)
    {
      replaying := begins;
    }

    method LearnSkills(skills: seq<Skill>)
      modifies this
      ensures Value() == old(Value()).(skills := skills)
    {
      this.skills := skills;
    }

    method Select(selection: Selection)
      modifies this
      ensures Value() == old(Value()).(selection := Some(selection))
    {
      this.selection := Some(selection);
    }

    /** The baseline is taken now: the summarizer's own steps meter usage too. */
    method BeginCompaction()
      modifies this
      ensures Value() == old(Value()).(compacting := true, compactionFrom := old(contextUsed))
    {
      compacting := true;
      compactionFrom := contextUsed;
    }

    method EndCompaction(after: nat)
      modifies this
      ensures Value() == old(Value()).(compacting := false, contextUsed := Some(after), compactionFrom := None)
    {
      compacting := false;
      contextUsed := Some(after);
      compactionFrom := None;
    }

    method FailCompaction()
      modifies this
      ensures Value() == old(Value()).(compacting := false, compactionFrom := None)
    {
      compacting := false;
      compactionFrom := None;
    }
  }

  lemma {:induction false} UnqueuedShorter(pending: seq<Pending>, entry: Id)
    ensures |Unqueued(pending, entry)| <= |pending|
    ensures |Unqueued(pending, entry)| == |pending| ==> Unqueued(pending, entry) == pending
  {
    if pending != [] {
      UnqueuedShorter(pending[1..], entry);
    }
  }
}
