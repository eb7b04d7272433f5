/** The interactive mode as the program runs it (`mode.ts`, with the pane bookkeeping of `root.ts`): one
    object whose handlers update stream objects in place and push every change to the view piecemeal.
    Each method is proved to compute the pure fold of Modes, and to leave everything the view was last
    told equal to what it should show. */
module InteractiveModes {
  import opened Wrappers
  import opened Assoc
  import opened Streams
  import opened Modes
  import opened Sequences
  import opened ModeLaws
  import Trees

  /** What the mode last told its view, the subagent list's filter, and the panes. A pane's key is its
      stream, or `None` for the scratch pane. */
  class View {
    var footer: Option<Footer>
    var status: Status
    var pending: seq<Pending>
    var skills: seq<Skill>
    var notice: Option<(Level, string)>
    var overflow: nat
    var report: Option<Report>
    var hero: Option<Hero>
    var rows: seq<Row>
    var visible: set<Id>
    var panes: set<Option<Id>>
    var home: Option<Id>
    var shown: Option<Id>

    constructor ()
      ensures footer == None && pending == [] && skills == [] && notice == None && overflow == 0
      ensures report == None && hero == None && rows == [] && visible == {}
      ensures panes == {None} && home == None && shown == None
    {
      footer, status, pending, skills := None, Connecting, [], [];
      notice, overflow, report, hero := None, 0, None, None;
      rows, visible := [], {};
      panes, home, shown := {None}, None, None;
    }

    /** The pane a transcript call folds into, made on demand. */
    method Write(stream: Option<Id>)
      modifies this`panes
      ensures panes == old(panes) + {if stream.Some? then stream else home}
    {
      var key := if stream.Some? then stream else home;
      if key !in panes {
        panes := panes + {key};
      }
    }

    /** The first stream shown adopts the scratch pane. */
    method ShowStream(stream: Id)
      modifies this`panes, this`home, this`shown
      ensures home == if old(home).None? then Some(stream) else old(home)
      ensures shown == Some(stream)
      ensures panes == (if old(home).None? && None in old(panes) && Some(stream) !in old(panes)
                        then old(panes) - {None} else old(panes)) + {Some(stream)}
    {
      if home.None? {
        home := Some(stream);
        if None in panes && Some(stream) !in panes {
          panes := panes - {None} + {Some(stream)};
        }
      }
      Write(Some(stream));
      shown := Some(stream);
    }

    /** Refused for the shown pane. */
    method DropStream(stream: Id) returns (refused: bool)
      modifies this`panes
      ensures refused <==> Some(stream) == shown
      ensures panes == if refused then old(panes) else old(panes) - {Some(stream)}
    {
      if Some(stream) == shown {
        return true;
      }
      panes := panes - {Some(stream)};
      return false;
    }

    /** The list filters its rows; a row that was visible and no longer is reports `hid`. */
    method Reproject(now: Clock) returns (hid: bool)
      modifies this`visible
      ensures visible == VisibleIn(rows, now)
      ensures hid <==> !(old(visible) <= visible)
    {
      var before := visible;
      visible := set r | r in rows && Shows(r, now) :: r.stream;
      hid := !(before <= visible);
    }
  }

  ghost function Objects(ss: Assoc<Id, StreamState>): set<StreamState> {
    set i | 0 <= i < |ss| :: ss[i].1
  }

  lemma TailObjects(ss: Assoc<Id, StreamState>)
    requires ss != []
    ensures ss[0].1 in Objects(ss) && Objects(ss) == {ss[0].1} + Objects(ss[1..])
  {
    assert forall i :: 0 < i < |ss| ==> ss[i] == ss[1..][i - 1];
    assert forall i :: 0 <= i < |ss[1..]| ==> ss[1..][i] == ss[i + 1];
  }

  ghost function Values(ss: Assoc<Id, StreamState>): (r: Assoc<Id, Stream>)
    reads Objects(ss)
    ensures |r| == |ss|
  {
    if ss == [] then [] else
      TailObjects(ss);
      [(ss[0].0, ss[0].1.Value())] + Values(ss[1..])
  }

  lemma {:induction false} ValuesGet(ss: Assoc<Id, StreamState>, id: Id)
    ensures Has(Values(ss), id) == Has(ss, id)
    ensures Has(ss, id) ==> Get(ss, id).value in Objects(ss) && Get(Values(ss), id) == Some(Get(ss, id).value.Value())
  {
    if ss != [] {
      ValuesGet(ss[1..], id);
      TailObjects(ss);
      var rest := Values(ss[1..]);
      assert ([(ss[0].0, ss[0].1.Value())] + rest)[1..] == rest;
    }
  }

  lemma {:induction false} ValuesPut(ss: Assoc<Id, StreamState>, id: Id, s: StreamState)
    ensures Values(Put(ss, id, s)) == Put(Values(ss), id, s.Value())
    ensures Objects(Put(ss, id, s)) <= Objects(ss) + {s}
  {
    if ss == [] {
      assert Put(ss, id, s)[1..] == [];
    } else {
      TailObjects(ss);
      var rest := Values(ss[1..]);
      assert ([(ss[0].0, ss[0].1.Value())] + rest)[1..] == rest;
      var put := Put(ss, id, s);
      TailObjects(put);
      if ss[0].0 == id {
        assert put[1..] == ss[1..];
      } else {
        ValuesPut(ss[1..], id, s);
        assert put[1..] == Put(ss[1..], id, s);
      }
    }
  }

  /** Every object sits under its own id. */
  ghost predicate Keyed(ss: Assoc<Id, StreamState>) {
    forall i :: 0 <= i < |ss| ==> ss[i].1.id == ss[i].0
  }

  lemma {:induction false} KeyedPut(ss: Assoc<Id, StreamState>, s: StreamState)
    requires Keyed(ss)
    ensures Keyed(Put(ss, s.id, s))
  {
    if ss != [] && ss[0].0 != s.id {
      KeyedPut(ss[1..], s);
      var rest := Put(ss[1..], s.id, s);
      assert Put(ss, s.id, s) == [ss[0]] + rest;
    }
  }

  /** One object changed: one value did. */
  twostate lemma {:induction false} ValuesChanged(ss: Assoc<Id, StreamState>, new s: StreamState)
    requires Keyed(ss) && Distinct(ss) && (Has(ss, s.id) ==> Get(ss, s.id) == Some(s))
    requires forall o :: o in Objects(ss) && o != s ==> o.Value() == old(o.Value())
    ensures Values(ss) == if Has(ss, s.id) then Put(old(Values(ss)), s.id, s.Value()) else old(Values(ss))
  {
    if ss != [] {
      TailObjects(ss);
      var rest := old(Values(ss[1..]));
      assert ([(ss[0].0, old(ss[0].1.Value()))] + rest)[1..] == rest;
      ValuesChanged(ss[1..], s);
    }
  }

  lemma {:induction false} ValuesAppend(ss: Assoc<Id, StreamState>, last: (Id, StreamState))
    ensures Values(ss + [last]) == Values(ss) + [(last.0, last.1.Value())]
  {
    var longer := ss + [last];
    if ss == [] {
      assert longer[1..] == [];
    } else {
      ValuesAppend(ss[1..], last);
      assert longer[1..] == ss[1..] + [last];
    }
  }

  twostate lemma {:induction false} Same(ss: Assoc<Id, StreamState>)
    requires forall o :: o in Objects(ss) ==> o.Value() == old(o.Value())
    ensures Values(ss) == old(Values(ss))
  {
    if ss != [] {
      TailObjects(ss);
      Same(ss[1..]);
    }
  }

  ghost function ObjectAt(ss: Assoc<Id, StreamState>, id: Id): StreamState
    requires Has(ss, id)
  {
    Get(ss, id).value
  }

  twostate lemma {:induction false} ValuesGetOld(ss: Assoc<Id, StreamState>, new id: Id)
    requires Has(ss, id)
    ensures Get(old(Values(ss)), id) == Some(old(ObjectAt(ss, id).Value()))
  {
    var rest := old(Values(ss[1..]));
    assert ([(ss[0].0, old(ss[0].1.Value()))] + rest)[1..] == rest;
    if ss[0].0 != id {
      ValuesGetOld(ss[1..], id);
    }
  }

  /** The dock facts of the focused stream, as the view was last told them. */
  ghost predicate DockMatches(m: Mode, footer: Option<Footer>, status: Status, pending: seq<Pending>,
                              skills: seq<Skill>) {
    match FocusedStream(m)
    case None => true
    case Some(s) =>
      && footer == Some(FooterOf(m.root, m.channel, s)) && status == StatusOf(m.checking, s)
      && pending == s.pending && skills == s.skills
  }

  function DockedNotice(notices: Assoc<string, Notice>): Option<(Level, string)> {
    match Top(notices)
    case None => None
    case Some(n) => Some((n.level, n.text))
  }

  class InteractiveMode {
    const view: View
    var root: Option<Id>
    var focused: Option<Id>
    var streams: Assoc<Id, StreamState>
    var channel: Option<string>
    var checking: bool
    var notices: Assoc<string, Notice>
    var turns: nat
    var cards: Assoc<Id, OpenCard>
    var resting: Report
    var heroActive: bool
    var sessionsOnDisk: Option<nat>
    var modelCounts: seq<nat>
    var extensions: Option<(seq<string>, nat)>

    /** The mode as a value of the pure model. */
    ghost function State(): Mode
      reads this, view, Objects(streams)
    {
      Mode(root, focused, Values(streams), channel, checking, notices, turns, cards, resting, heroActive,
           sessionsOnDisk, modelCounts, extensions, view.hero, view.rows, view.visible, view.home)
    }

    ghost predicate Wired()
      reads this`streams
    {
      Keyed(streams) && Distinct(streams)
    }

    /** The footer, the status line, the queue and the skills last shown are the focused stream's. */
    ghost predicate DockTold()
      reads this, view, Objects(streams)
    {
      DockMatches(State(), view.footer, view.status, view.pending, view.skills)
    }

    /** The notice last shown is the first of the most severe, and the rest are counted. */
    ghost predicate NoticeTold()
      reads this`notices, view`notice, view`overflow
    {
      view.notice == DockedNotice(notices) && view.overflow == Overflow(notices)
    }

    /** The pane shown is the focused stream's, and every pane is a registered stream's, the scratch
        pane, or the home of notes without a stream. */
    ghost predicate PanesTold()
      reads this`focused, this`streams, view`shown, view`panes, view`home
    {
      && view.shown == focused
      && forall p {:trigger p in view.panes} ::
           p in view.panes ==> p == None || p == view.home || Has(streams, p.value)
    }

    ghost predicate ReportTold()
      reads this`cards, this`streams, this`resting, view`report, Objects(streams)
    {
      view.report.Some? ==> view.report == Some(ReportOf(cards, Values(streams), resting))
    }

    ghost predicate Told()
      reads this, view, Objects(streams)
    {
      Wired() && DockTold() && NoticeTold() && PanesTold()
    }

    ghost predicate At(s: StreamState)
      reads this`streams
    {
      Wired() && Get(streams, s.id) == Some(s)
    }

    constructor (view: View)
      requires view.notice == None && view.overflow == 0 && view.report == None && view.hero == None
      requires view.rows == [] && view.visible == {} && view.panes == {None} && view.home == None && view.shown == None
      modifies view`status
      ensures this.view == view && State() == START && Told() && ReportTold()
    {
      this.view := view;
      root, focused, streams, channel, checking := None, None, [], None, false;
      notices, turns, cards, resting := [], 0, [], Unstarted;
      heroActive, sessionsOnDisk, modelCounts, extensions := false, None, [], None;
      new;
      view.status := Connecting;
    }

    /** One registered object changed: one stream of the state did. */
    twostate lemma Folded(s: StreamState)
      requires old(At(s)) && streams == old(streams)
      requires forall o :: o in Objects(streams) && o != s ==> o.Value() == old(o.Value())
      ensures Values(streams) == Put(old(Values(streams)), s.id, s.Value())
      ensures Get(old(Values(streams)), s.id) == Some(old(s.Value()))
      ensures forall id {:trigger Get(Values(streams), id)} ::
                Get(Values(streams), id) == if id == s.id then Some(s.Value()) else Get(old(Values(streams)), id)
    {
      ValuesChanged(streams, s);
      ValuesGetOld(streams, s.id);
      forall id
        ensures Get(Values(streams), id) == if id == s.id then Some(s.Value()) else Get(old(Values(streams)), id)
      {
        GetPut(old(Values(streams)), s.id, s.Value(), id);
      }
    }

    // ---- emissions

    method EmitFocusedState()
      requires Wired()
      modifies view`footer, view`status, view`pending, view`skills
      ensures focused.Some? && Has(streams, focused.value) ==>
        var s := Get(streams, focused.value).value.Value();
        && view.footer == Some(FooterOf(root, channel, s)) && view.status == StatusOf(checking, s)
        && view.pending == s.pending && view.skills == s.skills
      ensures !(focused.Some? && Has(streams, focused.value)) ==>
        && view.footer == old(view.footer) && view.status == old(view.status)
        && view.pending == old(view.pending) && view.skills == old(view.skills)
    {
      if focused.None? || !Has(streams, focused.value) {
        return;
      }
      var s := Get(streams, focused.value).value;
      view.footer := Some(Footer(if Some(s.id) == root then None
                                 else Some(if s.title.Some? then s.title.value else s.id),
                                 s.id, s.path, s.cwd, s.selection, s.resumed, s.spend, s.contextUsed,
                                 s.running, s.closed, channel));
      view.status := StatusText(s);
      view.pending := s.pending;
      view.skills := s.skills;
    }

    function StatusText(s: StreamState): (status: Status)
      reads this`checking, s
      ensures status == StatusOf(checking, s.Value())
    {
      if s.compacting then Compacting
      else if s.running then Busy
      else if checking then Checking
      else Resting
    }

    method EmitStatus(s: StreamState)
      modifies view`status
      ensures view.status == if Some(s.id) == focused then StatusOf(checking, s.Value()) else old(view.status)
    {
      if Some(s.id) == focused {
        view.status := StatusText(s);
      }
    }

    method EmitFooter(s: StreamState)
      requires At(s)
      modifies view`footer, view`status, view`pending, view`skills
      ensures Some(s.id) == focused ==>
        && view.footer == Some(FooterOf(root, channel, s.Value())) && view.status == StatusOf(checking, s.Value())
        && view.pending == s.pending && view.skills == s.skills
      ensures Some(s.id) != focused ==>
        && view.footer == old(view.footer) && view.status == old(view.status)
        && view.pending == old(view.pending) && view.skills == old(view.skills)
    {
      if Some(s.id) == focused {
        EmitFocusedState();
      }
    }

    /** If `s` is focused, the dock shows its facts. */
    ghost predicate Attended(s: StreamState)
      reads this`focused, this`root, this`channel, this`checking, s
      reads view`footer, view`status, view`pending, view`skills
    {
      Some(s.id) == focused ==>
        && view.footer == Some(FooterOf(root, channel, s.Value())) && view.status == StatusOf(checking, s.Value())
        && view.pending == s.pending && view.skills == s.skills
    }

    /** What every handler does with its own stream: it folds the event in, keeps an attended dock
        attended, tells nothing of a stream in the background, and writes to no other stream's pane. */
    twostate predicate Carried(s: StreamState, new e: Event, new now: Clock)
      reads this`streams, this`focused, this`root, this`channel, this`checking, s
      reads view`footer, view`status, view`pending, view`skills, view`panes
    {
      && At(s) && Attended(s) && s.Value() == FoldStream(old(s.Value()), e, now)
      && (Some(s.id) != focused ==>
            && view.footer == old(view.footer) && view.status == old(view.status)
            && view.pending == old(view.pending) && view.skills == old(view.skills))
      && view.panes <= old(view.panes) + {Some(s.id)}
    }

    /** A change the footer does not show leaves an attended dock attended, once the rest is told. */
    twostate lemma StillAttended(s: StreamState)
      requires old(Attended(s)) && root == old(root) && focused == old(focused) && channel == old(channel)
      requires SameFacts(old(s.Value()), s.Value()) && view.footer == old(view.footer)
      requires Some(s.id) == focused ==> view.pending == s.pending && view.skills == s.skills
      requires Some(s.id) == focused ==>
        || view.status == StatusOf(checking, s.Value())
        || (view.status == old(view.status) && checking == old(checking)
            && s.Value().compacting == old(s.Value()).compacting)
      ensures Attended(s)
    {
      SameFooter(root, channel, old(s.Value()), s.Value());
    }

    /** What an attended dock shows of a stream's own fields. */
    lemma AttendedFields(s: StreamState)
      ensures Attended(s) && Some(s.id) == focused ==> view.pending == s.pending && view.skills == s.skills
      ensures s.Value().pending == s.pending && s.Value().skills == s.skills
    {
    }

    // ---- handlers of run events

    /** A run is on, and an attended dock is told. */
    method BeginRun(s: StreamState)
      requires At(s)
      modifies s, view`footer, view`status, view`pending, view`skills
      ensures s.Value() == Started(old(s.Value())) && Attended(s)
      ensures Some(s.id) != focused ==>
        && view.footer == old(view.footer) && view.status == old(view.status)
        && view.pending == old(view.pending) && view.skills == old(view.skills)
    {
      hide Keyed, Distinct, Get, StreamState.Value, FooterOf, StatusOf, Started;
      s.StartRun();
      EmitStatus(s);
      EmitFooter(s);
    }

    /** A message that the tree cannot hang anywhere throws here: its run is on, but it stays queued. */
    method OnUserMessage(s: StreamState, entry: Id, text: string, now: Clock) returns (threw: bool)
      requires At(s) && Attended(s)
      modifies s, view`footer, view`status, view`pending, view`skills, view`panes
      ensures Carried(s, UserMessage(entry, text), now)
      ensures threw <==> Throws(old(s.Value()), UserMessage(entry, text))
    {
      hide Keyed, Distinct, Get, StreamState.Value, FoldStream, FooterOf, StatusOf, Unqueued, Throws, Trees.Throws,
           Trees.Leaves, Attended;
      s.Fields();
      FoldUser(s.Value(), entry, text, now);
      if !s.replaying {
        BeginRun(s);
      }
      s.Fields();
      AttendedFields(s);
      label told:
      threw := s.EnterUser(entry, text);
      s.Fields();
      if threw {
        StillAttended@told(s);
        return;
      }
      view.Write(Some(s.id));
      var changed := s.Deliver(entry);
      s.Fields();
      if changed && Some(s.id) == focused {
        view.pending := s.pending;
      }
      StillAttended@told(s);
    }

    method OnRunFinished(s: StreamState, now: Clock)
      requires At(s) && Attended(s)
      modifies s, this`resting, this`cards, view`footer, view`status, view`pending, view`skills
      ensures Carried(s, RunFinished, now)
      ensures resting == Done && cards == WithoutStream(old(cards), s.id)
    {
      hide Keyed, Distinct, Get, StreamState.Value, FooterOf, StatusOf;
      FoldEnds(s.Value(), RunFinished, now);
      hide FoldStream, Ended;
      s.EndRun(Completed, now);
      resting := Done;
      EmitStatus(s);
      EmitFooter(s);
      CloseStreamCards(s);
    }

    method OnRunAborted(s: StreamState, now: Clock)
      requires At(s) && Attended(s)
      modifies s, this`resting, this`cards, view`footer, view`status, view`pending, view`skills, view`panes
      ensures Carried(s, RunAborted, now)
      ensures resting == Unstarted && cards == WithoutStream(old(cards), s.id)
    {
      hide Keyed, Distinct, Get, StreamState.Value, FooterOf, StatusOf;
      FoldEnds(s.Value(), RunAborted, now);
      hide FoldStream, Ended;
      s.EndRun(Aborted, now);
      resting := Unstarted;
      EmitStatus(s);
      EmitFooter(s);
      CloseStreamCards(s);
      view.Write(Some(s.id));
    }

    /** A failed run leaves its cards open. */
    method OnRunFailed(s: StreamState, message: string, now: Clock)
      requires At(s) && Attended(s)
      modifies s, this`resting, view`footer, view`status, view`pending, view`skills, view`panes
      ensures Carried(s, RunFailed(message), now)
      ensures resting == Troubled(FirstLine(message))
    {
      hide Keyed, Distinct, Get, StreamState.Value, FirstLine, FooterOf, StatusOf;
      FoldEnds(s.Value(), RunFailed(message), now);
      hide FoldStream, Ended;
      s.EndRun(Failed, now);
      resting := Troubled(FirstLine(message));
      EmitStatus(s);
      EmitFooter(s);
      view.Write(Some(s.id));
    }

    /** The cards of `s` go, the others keep their order. */
    method CloseStreamCards(s: StreamState)
      modifies this`cards
      ensures cards == WithoutStream(old(cards), s.id)
    {
      var i := 0;
      ghost var done: Assoc<Id, OpenCard>, left := [], cards;
      assert done + left == cards;
      while i < |cards|
        invariant i == |done| && cards == done + left
        invariant done + WithoutStream(left, s.id) == WithoutStream(old(cards), s.id)
        decreases |cards| - i
      {
        CutNext(done, left);
        WithoutStreamStep(done, left, s.id);
        if cards[i].1.stream == s.id {
          cards := cards[..i] + cards[i + 1..];
        } else {
          i := i + 1;
          done := done + [left[0]];
        }
        left := left[1..];
      }
      WithoutStreamStep(done, left, s.id);
      assert left == [];
    }

    // ---- queueing

    method OnMessageQueued(s: StreamState, queued: Pending, now: Clock)
      requires At(s) && Attended(s)
      modifies s, view`pending
      ensures Carried(s, MessageQueued(queued), now)
    {
      hide Keyed, Distinct, Get, StreamState.Value, FooterOf, Attended, StatusOf;
      FoldField(s.Value(), MessageQueued(queued), now);
      hide FoldStream;
      s.Fields();
      AttendedFields(s);
      s.Enqueue(queued);
      s.Fields();
      if Some(s.id) == focused {
        view.pending := s.pending;
      }
      StillAttended(s);
    }

    method OnMessagesDiscarded(s: StreamState, now: Clock)
      requires At(s) && Attended(s)
      modifies s, view`pending, view`panes
      ensures Carried(s, MessagesDiscarded, now)
    {
      hide Keyed, Distinct, Get, StreamState.Value, FooterOf, Attended, StatusOf;
      FoldField(s.Value(), MessagesDiscarded, now);
      hide FoldStream;
      s.Fields();
      AttendedFields(s);
      s.DropQueue();
      s.Fields();
      if Some(s.id) == focused {
        view.pending := s.pending;
      }
      view.Write(Some(s.id));
      StillAttended(s);
    }

    // ---- the transcript

    method OnTurnStarted(s: StreamState, turn: Id, now: Clock) returns (threw: bool)
      requires At(s) && Attended(s)
      modifies s, view`footer, view`status, view`pending, view`skills
      ensures Carried(s, TurnStarted(turn), now)
      ensures threw <==> Throws(old(s.Value()), TurnStarted(turn))
    {
      hide Keyed, Distinct, Get, StreamState.Value, FoldStream, Throws, Trees.Throws, Trees.Leaves, FooterOf, StatusOf,
           Attended;
      s.Fields();
      AttendedFields(s);
      FoldTurn(s.Value(), turn, now);
      threw := s.StartTurn(turn);
      s.Fields();
      if threw {
        StillAttended(s);
        return;
      }
      s.NoteDelta(None);
      s.Fields();
      StillAttended(s);
      if !s.replaying && !s.running {
        BeginRun(s);
      }
    }

    method OnDelta(s: StreamState, e: Event, now: Clock)
      requires At(s) && Attended(s) && (e.TextDelta? || e.ReasoningDelta?) && Trees.WellFormed(s.tree)
      modifies s, view`panes
      ensures Carried(s, e, now)
    {
      hide Keyed, Distinct, Get, StreamState.Value, FooterOf, Attended, StatusOf, FoldStream, Grown, Trees.WellFormed;
      s.Fields();
      AttendedFields(s);
      FoldDelta(s.Value(), e, now);
      if e.TextDelta? {
        s.Grow(e);
      }
      s.NoteDelta(Some(if e.TextDelta? then Text else Reasoning));
      s.Fields();
      view.Write(Some(s.id));
      StillAttended(s);
    }

    method OnToolCalled(s: StreamState, e: Event, now: Clock)
      requires At(s) && Attended(s) && e.ToolCalled? && Trees.WellFormed(s.tree)
      modifies s, view`panes
      ensures Carried(s, e, now)
    {
      hide Keyed, Distinct, Get, StreamState.Value, FooterOf, Attended, StatusOf, Put, FoldStream, Grown,
           Trees.WellFormed;
      s.Fields();
      AttendedFields(s);
      FoldCall(s.Value(), e, now);
      s.Grow(e);
      CallsOf(s);
      s.NoteCall(e.call, e.made.name, e.task);
      s.Fields();
      view.Write(Some(s.id));
      StillAttended(s);
    }

    method OnToolResult(s: StreamState, entry: Id, call: Id, tool: string, now: Clock) returns (threw: bool)
      requires At(s) && Attended(s)
      modifies s, view`panes
      ensures Carried(s, ToolResult(entry, call, tool), now)
      ensures threw <==> Throws(old(s.Value()), ToolResult(entry, call, tool))
    {
      hide Keyed, Distinct, Get, StreamState.Value, FooterOf, Attended, StatusOf, Delete, FoldStream, Throws,
           Trees.Throws, Trees.Leaves;
      s.Fields();
      AttendedFields(s);
      FoldResult(s.Value(), entry, call, tool, now);
      threw := s.EnterResult(entry, call, tool);
      s.Fields();
      if threw {
        StillAttended(s);
        return;
      }
      CallsOf(s);
      s.NoteResult(call);
      s.Fields();
      view.Write(Some(s.id));
      StillAttended(s);
    }

    lemma CallsOf(s: StreamState)
      ensures s.Value().openCalls == s.openCalls && s.Value().tasks == s.tasks && s.Value().spend == s.spend
    {
    }

    /** The one usage fold, for a completion and for a compaction's step. */
    method OnMetered(s: StreamState, e: Event, now: Clock) returns (threw: bool)
      requires At(s) && Attended(s) && (e.CompletionCall? || e.CompactionStep?)
      modifies s, view`footer, view`status, view`pending, view`skills
      ensures Carried(s, e, now) && (threw <==> Throws(old(s.Value()), e))
    {
      hide Keyed, Distinct, Get, StreamState.Value, FooterOf, StatusOf, Metered, FoldStream, Throws, Trees.Throws,
           Trees.Leaves;
      s.Fields();
      AttendedFields(s);
      FoldMetered(s.Value(), e, now);
      threw := false;
      if e.CompactionStep? {
        threw := s.EnterCompaction(e.entry, e.usage.total);
        s.Fields();
        if threw {
          StillAttended(s);
          return;
        }
      }
      CallsOf(s);
      s.Meter(e.usage, e.cost);
      EmitFooter(s);
    }

    /** Events whose handler changes the tree at most, and notes them in the stream's pane. */
    method OnNoted(s: StreamState, e: Event, now: Clock)
      requires At(s) && Attended(s) && (e.TurnRetried? || e.TurnTruncated? || e.CheckedOut?)
      requires Trees.WellFormed(s.tree)
      modifies s, view`panes
      ensures Carried(s, e, now)
    {
      hide Keyed, Distinct, Get, StreamState.Value, FooterOf, Attended, StatusOf, FoldStream, Grown, Trees.WellFormed;
      s.Fields();
      AttendedFields(s);
      FoldNoted(s.Value(), e, now);
      if !e.TurnTruncated? {
        s.Grow(e);
        s.Fields();
      }
      StillAttended(s);
      view.Write(Some(s.id));
    }

    method OnTurnCommitted(s: StreamState, now: Clock)
      requires At(s) && Attended(s) && NoticeTold()
      modifies this`turns, this`notices, view`notice, view`overflow
      ensures Carried(s, TurnCommitted, now) && NoticeTold()
      ensures s.replaying ==> turns == old(turns) && notices == old(notices)
      ensures !s.replaying ==> turns == old(turns) + 1 && notices == Aged(old(notices), turns)
    {
      hide Keyed, Distinct, Get, Aged, DockedNotice, Overflow, FooterOf, FoldStream, StreamState.Value, StatusOf,
           Attended, Carried;
      if !s.replaying {
        TickTurns();
      }
      LeftAlone(s, TurnCommitted, now);
    }

    /** A handler that only touches what belongs to no stream. */
    twostate lemma LeftAlone(s: StreamState, new e: Event, new now: Clock)
      requires old(At(s)) && old(Attended(s)) && Untouched(e) && unchanged(s)
      requires unchanged(this`streams, this`focused, this`root, this`channel, this`checking)
      requires unchanged(view`footer, view`status, view`pending, view`skills, view`panes)
      ensures Carried(s, e, now)
    {
      hide Keyed, Distinct, Get, FoldStream, FooterOf, StatusOf;
      FoldUntouched(old(s.Value()), e, now);
    }

    method OnReplay(s: StreamState, e: Event, now: Clock)
      requires At(s) && Attended(s) && (e.ReplayBegin? || e.ReplayEnd?) && Trees.WellFormed(s.tree)
      modifies s, view`panes
      ensures Carried(s, e, now)
    {
      hide Keyed, Distinct, Get, StreamState.Value, FoldStream, FooterOf, Attended, StatusOf, Grown, Trees.WellFormed;
      s.Fields();
      AttendedFields(s);
      FoldReplay(s.Value(), e, now);
      if e.ReplayBegin? {
        s.Grow(e);
      }
      s.Replay(e.ReplayBegin?);
      s.Fields();
      view.Write(Some(s.id));
      StillAttended(s);
    }

    method OnSkillsAvailable(s: StreamState, skills: seq<Skill>, now: Clock)
      requires At(s) && Attended(s)
      modifies s, view`skills, view`panes, view`hero
      ensures Carried(s, SkillsAvailable(skills), now)
      ensures view.hero == if heroActive && Some(s.id) == root then Some(HeroFacts(s)) else old(view.hero)
    {
      hide Keyed, Distinct, Get, StreamState.Value, FoldStream, FooterOf, Attended, StatusOf, HeroFacts;
      s.Fields();
      AttendedFields(s);
      FoldField(s.Value(), SkillsAvailable(skills), now);
      s.LearnSkills(skills);
      s.Fields();
      if Some(s.id) == focused {
        view.skills := s.skills;
      }
      NoteSkills(s);
      StillAttended(s);
    }

    /** A fresh root's skills are a line of the hero, others' a note. */
    method NoteSkills(s: StreamState)
      requires At(s)
      modifies view`panes, view`hero
      ensures view.hero == if heroActive && Some(s.id) == root then Some(HeroFacts(s)) else old(view.hero)
      ensures view.panes <= old(view.panes) + {Some(s.id)}
    {
      if heroActive && Some(s.id) == root {
        EmitHero();
      } else {
        view.Write(Some(s.id));
      }
    }

    method OnModelSelected(s: StreamState, selection: Selection, now: Clock)
      requires At(s) && Attended(s)
      modifies s, view`footer, view`status, view`pending, view`skills, view`hero
      ensures Carried(s, ModelSelected(selection), now)
      ensures view.hero == if heroActive && root.Some? && Has(streams, root.value)
                           then Some(HeroFacts(Get(streams, root.value).value)) else old(view.hero)
    {
      FoldField(s.Value(), ModelSelected(selection), now);
      hide Keyed, Distinct, Get, StreamState.Value, HeroFacts, FooterOf, StatusOf, FoldStream;
      s.Select(selection);
      EmitFooter(s);
      EmitHero();
    }

    // ---- the hero

    function HeroFacts(r: StreamState): (hero: Hero)
      reads this`sessionsOnDisk, this`modelCounts, this`extensions, r
    {
      Hero(r.id, r.cwd, sessionsOnDisk, r.selection, r.skills, modelCounts,
           if extensions.Some? && extensions.value == ([], 0) then None else extensions)
    }

    method EmitHero()
      modifies view`hero
      ensures view.hero == if heroActive && root.Some? && Has(streams, root.value)
                           then Some(HeroFacts(Get(streams, root.value).value)) else old(view.hero)
    {
      if heroActive && root.Some? && Has(streams, root.value) {
        view.hero := Some(HeroFacts(Get(streams, root.value).value));
      }
    }

    // ---- compaction

    method OnCompactionBegin(s: StreamState, now: Clock)
      requires At(s) && Attended(s)
      modifies s, view`status
      ensures Carried(s, CompactionBegin, now)
    {
      hide Keyed, Distinct, Get, StreamState.Value, FoldStream, FooterOf, Attended, StatusOf;
      s.Fields();
      AttendedFields(s);
      FoldCompacts(s.Value(), CompactionBegin, now);
      s.BeginCompaction();
      s.Fields();
      EmitStatus(s);
      StillAttended(s);
    }

    method OnCompactionEnd(s: StreamState, after: nat, now: Clock)
      requires At(s) && Attended(s)
      modifies s, this`resting, view`footer, view`status, view`pending, view`skills, view`panes
      ensures Carried(s, CompactionEnd(after), now) && resting == Done
    {
      FoldCompacts(s.Value(), CompactionEnd(after), now);
      hide Keyed, Distinct, Get, StreamState.Value, FooterOf, StatusOf, FoldStream;
      s.EndCompaction(after);
      resting := Done;
      view.Write(Some(s.id));
      EmitStatus(s);
      EmitFooter(s);
    }

    method OnCompactionFailed(s: StreamState, message: string, now: Clock)
      requires At(s) && Attended(s)
      modifies s, this`resting, view`status, view`panes
      ensures Carried(s, CompactionFailed(message), now) && resting == Troubled(FirstLine(message))
    {
      hide Keyed, Distinct, Get, StreamState.Value, FirstLine, FoldStream, FooterOf, Attended, StatusOf;
      AttendedFields(s);
      FoldCompacts(s.Value(), CompactionFailed(message), now);
      s.FailCompaction();
      s.Fields();
      resting := Troubled(FirstLine(message));
      view.Write(Some(s.id));
      EmitStatus(s);
      StillAttended(s);
    }

    // ---- the sweep

    /** One closed, unreachable stream goes, pane and all; the view never refuses. */
    method Drop(i: nat)
      requires Wired() && PanesTold() && i < |streams| && Some(streams[i].0) != focused
      modifies this`streams, view`panes
      ensures Wired() && PanesTold() && streams == old(streams[..i] + streams[i + 1..])
      ensures forall id :: Get(streams, id) == if id == old(streams[i].0) then None else Get(old(streams), id)
    {
      var id := streams[i].0;
      var was := streams;
      DeleteAt(was, i);
      DeleteDistinct(was, id);
      forall other
        ensures Get(Delete(was, id), other) == if other == id then None else Get(was, other)
      {
        GetDelete(was, id, other);
      }
      streams := Delete(streams, id);
      var refused := view.DropStream(id);
      assert !refused;
    }

    method SweepClosed()
      requires Wired() && PanesTold()
      modifies this`streams, view`panes
      ensures Wired() && PanesTold()
      ensures Objects(streams) <= old(Objects(streams))
      ensures Values(streams) == Swept(old(Values(streams)), focused, view.visible)
      ensures FocusedStream(State()) == FocusedStream(old(State()))
    {
      hide Get, Has, Unreachable, Distinct, PanesTold, Swept, Values;
      FocusSurvives(streams, focused, view.visible);
      var i := 0;
      ghost var done: Assoc<Id, StreamState>, left := [], streams;
      ghost var swept := Swept(Values(streams), focused, view.visible);
      NothingLeft(focused, view.visible);
      assert [] + swept == swept;
      while i < |streams|
        invariant Wired() && PanesTold()
        invariant i == |done| && streams == done + left
        invariant Objects(streams) <= old(Objects(streams))
        invariant Values(done) + Swept(Values(left), focused, view.visible) == swept
        decreases |streams| - i
      {
        var s := streams[i].1;
        assert s == left[0].1 && s.id == streams[i].0;
        SweepStep(done, left, focused, view.visible);
        UnreachableIs(s.Value(), focused, view.visible);
        CutNext(done, left);
        if !s.closed || s.parent.None? || Some(s.id) == focused || s.id in view.visible {
          assert Values(done + [left[0]]) + Swept(Values(left[1..]), focused, view.visible) == swept;
          i := i + 1;
          done := done + [left[0]];
        } else {
          assert Values(done) + Swept(Values(left[1..]), focused, view.visible) == swept;
          DropObjects(streams, i);
          label before:
          Drop(i);
          Same@before(done);
          Same@before(left[1..]);
        }
        left := left[1..];
      }
      assert left == [] && streams == done;
      NothingLeft(focused, view.visible);
      assert Values(done) + [] == Values(done);
    }

    // ---- notices

    method EmitNotice()
      modifies view`notice, view`overflow
      ensures NoticeTold()
    {
      var live := ByRank(notices);
      view.notice := if live == [] then None else Some((live[0].level, live[0].text));
      view.overflow := if |notices| == 0 then 0 else |notices| - 1;
    }

    method TickTurns()
      requires NoticeTold()
      modifies this`turns, this`notices, view`notice, view`overflow
      ensures turns == old(turns) + 1 && notices == Aged(old(notices), turns)
      ensures NoticeTold()
    {
      turns := turns + 1;
      var changed := DropExpired();
      if changed {
        EmitNotice();
      }
    }

    method DropExpired() returns (changed: bool)
      modifies this`notices
      ensures notices == Aged(old(notices), turns)
      ensures !changed ==> notices == old(notices)
    {
      var i := 0;
      changed := false;
      ghost var done: Assoc<string, Notice>, left := [], notices;
      assert done + left == notices;
      while i < |notices|
        invariant i == |done| && notices == done + left
        invariant done + Aged(left, turns) == Aged(old(notices), turns)
        invariant !changed ==> notices == old(notices)
        decreases |notices| - i
      {
        CutNext(done, left);
        AgedStep(done, left, turns);
        var n := notices[i].1;
        if !n.pinned && turns - n.born >= TRANSIENT_TURNS {
          notices := notices[..i] + notices[i + 1..];
          changed := true;
        } else {
          i := i + 1;
          done := done + [left[0]];
        }
        left := left[1..];
      }
      AgedStep(done, left, turns);
      assert left == [];
    }

    // ---- the subagent list and the program status

    method ListRows() returns (rows: seq<Row>)
      ensures rows == RowsOf(Values(streams), cards)
    {
      rows := [];
      assert streams[0..] == streams;
      for k := 0 to |streams|
        invariant rows + RowsOf(Values(streams[k..]), cards) == RowsOf(Values(streams), cards)
      {
        var s := streams[k].1;
        assert streams[k..][1..] == streams[k + 1..] && streams[k..][0] == streams[k];
        assert Values(streams[k..])[1..] == Values(streams[k + 1..]);
        if s.parent.Some? {
          rows := rows + [RowFor(s)];
        }
      }
    }

    function RowFor(s: StreamState): (r: Row)
      requires s.parent.Some?
      reads this`cards, s
      ensures r == RowOf(s.Value(), cards)
    {
      Row(s.id, s.parent.value, if s.title.Some? then s.title.value else "subagent",
          ActivityOf(s.Value(), AwaitedBy(cards, s.id)), s.running,
          if s.running || s.terminal.None? then None else Some(s.terminalAt))
    }

    method EmitSubagents(now: Clock)
      requires Wired() && PanesTold()
      modifies this`streams, view`rows, view`visible, view`panes
      ensures Wired() && PanesTold() && Objects(streams) <= old(Objects(streams))
      ensures State() == Relisted(old(State()), now)
      ensures FocusedStream(State()) == FocusedStream(old(State()))
    {
      hide RowsOf, Swept, VisibleIn, Distinct, Values;
      view.rows := ListRows();
      var hid := view.Reproject(now);
      if hid {
        SweepClosed();
      }
    }

    method AnyBusy() returns (busy: bool)
      ensures busy == Busier(Values(streams))
    {
      assert streams[0..] == streams;
      for k := 0 to |streams|
        invariant Busier(Values(streams)) == Busier(Values(streams[k..]))
      {
        assert streams[k..][1..] == streams[k + 1..] && streams[k..][0] == streams[k];
        assert Values(streams[k..])[1..] == Values(streams[k + 1..]);
        if streams[k].1.running || streams[k].1.compacting {
          return true;
        }
      }
      return false;
    }

    /** An unchanged report does not cross to the view again. */
    method ReportProgramStatus()
      modifies view`report
      ensures view.report == Some(ReportOf(cards, Values(streams), resting))
    {
      var report := resting;
      if cards != [] {
        report := Blocked(cards[0].1.card.title);
      } else {
        var busy := AnyBusy();
        if busy {
          report := Underway;
        }
      }
      assert report == ReportOf(cards, Values(streams), resting);
      if view.report != Some(report) {
        view.report := Some(report);
      }
      Same(streams);
    }

    // ---- cards, notices and the close of a stream

    method OnInteractionRequest(s: StreamState, request: Id, uiType: string, payload: Payload, now: Clock)
      requires At(s) && Attended(s)
      modifies this`cards, view`panes
      ensures Carried(s, InteractionRequest(request, uiType, payload), now)
      ensures cards == match ParseCard(request, uiType, payload)
        case None => old(cards)
        case Some(card) => Put(old(cards), card.id, OpenCard(card, s.id))
    {
      FoldUntouched(s.Value(), InteractionRequest(request, uiType, payload), now);
      hide ParseCard, FoldStream;
      var card := ParseCard(request, uiType, payload);
      if card.None? {
        view.Write(Some(s.id));
        return;
      }
      cards := Put(cards, card.value.id, OpenCard(card.value, s.id));
    }

    method OnInteractionSettled(s: StreamState, request: Id, now: Clock)
      requires At(s) && Attended(s)
      modifies this`cards
      ensures Carried(s, InteractionSettled(request), now) && cards == Delete(old(cards), request)
    {
      FoldUntouched(s.Value(), InteractionSettled(request), now);
      hide FoldStream;
      cards := Delete(cards, request);
    }

    method OnNotice(s: StreamState, e: Event, now: Clock)
      requires At(s) && Attended(s) && IsNotice(e)
      modifies this`notices, view`notice, view`overflow
      ensures Carried(s, e, now) && NoticeTold()
      ensures notices == if e.Noticed? then
                           Put(old(notices), NoticeKey(s.id, e.notice),
                               Notice(e.level, e.text, e.level == Severe, turns))
                         else Delete(old(notices), NoticeKey(s.id, e.notice))
    {
      hide DockedNotice, Overflow, Put, Delete, NoticeKey, FooterOf, StatusOf, FoldStream, StreamState.Value, Attended,
           Carried;
      if e.Noticed? {
        FoldNotice(NoticeKey(s.id, e.notice), e.level, e.text);
      } else {
        ClearNotice(NoticeKey(s.id, e.notice));
      }
      LeftAlone(s, e, now);
    }

    method FoldNotice(key: string, level: Level, text: string)
      modifies this`notices, view`notice, view`overflow
      ensures notices == Put(old(notices), key, Notice(level, text, level == Severe, turns))
      ensures NoticeTold()
    {
      notices := Put(notices, key, Notice(level, text, level == Severe, turns));
      EmitNotice();
    }

    method ClearNotice(key: string)
      modifies this`notices, view`notice, view`overflow
      ensures notices == Delete(old(notices), key)
      ensures NoticeTold()
    {
      notices := Delete(notices, key);
      EmitNotice();
    }

    method MarkClosed(s: StreamState, id: Id, now: Clock)
      requires At(s) && Attended(s)
      modifies s, view`footer, view`status, view`pending, view`skills
      ensures Carried(s, SessionClosed(id), now)
    {
      FoldField(s.Value(), SessionClosed(id), now);
      hide FooterOf, StatusOf, StreamState.Value, Keyed, Distinct, Get, FoldStream, Shut;
      var queued := s.Close(now);
      if queued && Some(s.id) == focused {
        view.pending := s.pending;
      }
      EmitStatus(s);
      EmitFooter(s);
    }

    // ---- one event on its stream

    lemma Attends(s: StreamState)
      requires At(s) && DockTold()
      ensures Attended(s)
    {
      ValuesGet(streams, s.id);
    }

    lemma StreamIs(s: StreamState)
      requires At(s)
      ensures Get(State().streams, s.id) == Some(s.Value())
    {
      ValuesGet(streams, s.id);
    }

    /** What a handler's own work on its stream means for the whole mode. */
    twostate lemma Carries(s: StreamState, new e: Event, new now: Clock)
      requires old(At(s)) && old(DockTold()) && old(PanesTold()) && Carried(s, e, now)
      requires unchanged(this`streams, this`root, this`focused, this`channel, this`checking, this`heroActive)
      requires unchanged(this`sessionsOnDisk, this`modelCounts, this`extensions)
      requires unchanged(view`rows, view`visible, view`home, view`shown)
      requires forall o :: o in Objects(streams) && o != s ==> o.Value() == old(o.Value())
      ensures Get(old(Values(streams)), s.id) == Some(old(s.Value()))
      ensures DockTold() && PanesTold()
      ensures State() == old(State()).(streams := Put(old(Values(streams)), s.id, FoldStream(old(s.Value()), e, now)),
                                       turns := turns, notices := notices, cards := cards, resting := resting,
                                       hero := view.hero)
    {
      hide FoldStream, Keyed, Distinct, Put;
      Folded(s);
    }

    /** The sweep as a step of the whole mode, and the note on a closed stream that is kept. */
    method SweepAndNote(noted: Option<Id>)
      requires Told()
      modifies this`streams, view`panes
      ensures Told() && Objects(streams) <= old(Objects(streams)) && State() == Sweep(old(State()))
      ensures FocusedStream(State()) == FocusedStream(old(State()))
    {
      hide Keyed, Distinct, Swept, Values, DockMatches;
      ghost var m := State();
      SweepClosed();
      label swept:
      if noted.Some? && Has(streams, noted.value) {
        view.Write(noted);
      }
      Same@swept(streams);
      DockStays(m, State(), view.footer, view.status, view.pending, view.skills);
    }

    method OnSessionClosed(s: StreamState, id: Id, now: Clock)
      requires At(s) && Told()
      modifies s, this`streams, view`footer, view`status, view`pending, view`skills, view`panes
      ensures Told() && Objects(streams) <= old(Objects(streams))
      ensures State() == FoldAt(old(State()), s.id, SessionClosed(id), now)
    {
      hide Keyed, Distinct, Put, FoldStream, Swept, Values, DockMatches, Attended, Carried, DockedNotice,
           Overflow, StreamState.Value;
      s.Fields();
      hide FoldAt;
      Attends(s);
      StreamIs(s);
      FoldsSpecially(State(), s.Value(), SessionClosed(id), now);
      MarkClosed(s, id, now);
      Carries(s, SessionClosed(id), now);
      SweepAndNote(Some(s.id));
    }

    method HandleQueue(s: StreamState, e: Event, now: Clock) returns (threw: bool)
      requires At(s) && Told() && IsQueueEvent(e)
      modifies s, view`footer, view`status, view`pending, view`skills, view`panes
      ensures Told() && State() == FoldAt(old(State()), s.id, e, now) && (threw <==> Throws(old(s.Value()), e))
    {
      hide Wired, DockTold, NoticeTold, PanesTold, StreamState.Value, Keyed, Distinct, Put, FoldStream, Values,
           DockMatches, WithoutStream, Get, Attended, Carried, DockedNotice, Overflow, FirstLine, Throws;
      s.Fields();
      hide FoldAt;
      Attends(s);
      StreamIs(s);
      FoldsQuietly(State(), s.Value(), e, now);
      threw := false;
      NeverThrows(s.Value(), e);
      match e {
        case UserMessage(entry, text) => threw := OnUserMessage(s, entry, text, now);
        case MessageQueued(queued) => OnMessageQueued(s, queued, now);
        case MessagesDiscarded => OnMessagesDiscarded(s, now);
      }
      Carries(s, e, now);
    }

    method HandleRun(s: StreamState, e: Event, now: Clock)
      requires At(s) && Told() && IsRunEvent(e)
      modifies s, this`resting, this`cards, view`footer, view`status, view`pending, view`skills, view`panes
      ensures Told() && State() == FoldAt(old(State()), s.id, e, now)
    {
      hide Wired, DockTold, NoticeTold, PanesTold, StreamState.Value, Keyed, Distinct, Put, FoldStream, Values,
           DockMatches, WithoutStream, Get, Attended, Carried, DockedNotice, Overflow, FirstLine;
      s.Fields();
      hide FoldAt;
      Attends(s);
      StreamIs(s);
      FoldsRun(State(), s.Value(), e, now);
      match e {
        case RunFinished => OnRunFinished(s, now);
        case RunAborted => OnRunAborted(s, now);
        case RunFailed(message) => OnRunFailed(s, message, now);
      }
      Carries(s, e, now);
    }

    method HandleTurn(s: StreamState, e: Event, now: Clock) returns (threw: bool)
      requires At(s) && Told() && IsTurnEvent(e) && Trees.WellFormed(s.tree)
      modifies s, view`footer, view`status, view`pending, view`skills, view`panes
      ensures Told() && State() == FoldAt(old(State()), s.id, e, now) && (threw <==> Throws(old(s.Value()), e))
    {
      hide Wired, DockTold, NoticeTold, PanesTold, StreamState.Value, Keyed, Distinct, Put, FoldStream, Values,
           DockMatches, WithoutStream, Get, Attended, DockedNotice, Overflow, FirstLine, Carried, Throws,
           Trees.WellFormed;
      s.Fields();
      hide FoldAt;
      Attends(s);
      StreamIs(s);
      FoldsQuietly(State(), s.Value(), e, now);
      threw := false;
      NeverThrows(s.Value(), e);
      match e {
        case TurnStarted(turn) => threw := OnTurnStarted(s, turn, now);
        case TextDelta(_, _) => OnDelta(s, e, now);
        case ReasoningDelta => OnDelta(s, e, now);
        case TurnRetried(_) => OnNoted(s, e, now);
        case TurnTruncated => OnNoted(s, e, now);
        case CompletionCall(_, _) => threw := OnMetered(s, e, now);
      }
      Carries(s, e, now);
    }

    method HandleTool(s: StreamState, e: Event, now: Clock) returns (threw: bool)
      requires At(s) && Told() && IsToolEvent(e) && Trees.WellFormed(s.tree)
      modifies s, view`panes
      ensures Told() && State() == FoldAt(old(State()), s.id, e, now) && (threw <==> Throws(old(s.Value()), e))
    {
      hide Wired, DockTold, NoticeTold, PanesTold, StreamState.Value, Keyed, Distinct, Put, FoldStream, Values,
           DockMatches, WithoutStream, Get, Attended, DockedNotice, Overflow, FirstLine, Carried, Throws,
           Trees.WellFormed;
      s.Fields();
      hide FoldAt;
      Attends(s);
      StreamIs(s);
      FoldsQuietly(State(), s.Value(), e, now);
      threw := false;
      NeverThrows(s.Value(), e);
      match e {
        case ToolCalled(_, _, _) => OnToolCalled(s, e, now);
        case ToolResult(entry, call, tool) => threw := OnToolResult(s, entry, call, tool, now);
        case ReplayBegin => OnReplay(s, e, now);
        case ReplayEnd => OnReplay(s, e, now);
        case CheckedOut(_) => OnNoted(s, e, now);
      }
      Carries(s, e, now);
    }

    method HandleCompaction(s: StreamState, e: Event, now: Clock) returns (threw: bool)
      requires At(s) && Told() && IsCompactionEvent(e)
      modifies s, this`resting, view`footer, view`status, view`pending, view`skills, view`panes
      ensures Told() && State() == FoldAt(old(State()), s.id, e, now) && (threw <==> Throws(old(s.Value()), e))
    {
      hide Wired, DockTold, NoticeTold, PanesTold, StreamState.Value, Keyed, Distinct, Put, FoldStream, Values,
           DockMatches, WithoutStream, Get, Attended, DockedNotice, Overflow, FirstLine, Carried, Throws;
      s.Fields();
      hide FoldAt;
      Attends(s);
      StreamIs(s);
      FoldsCompaction(State(), s.Value(), e, now);
      threw := false;
      NeverThrows(s.Value(), e);
      match e {
        case CompactionBegin => OnCompactionBegin(s, now);
        case CompactionStep(_, _, _) => threw := OnMetered(s, e, now);
        case CompactionEnd(after) => OnCompactionEnd(s, after, now);
        case CompactionFailed(message) => OnCompactionFailed(s, message, now);
      }
      Carries(s, e, now);
    }

    /** Skills and model selections, which the hero shows. */
    method HandleSkills(s: StreamState, e: Event, now: Clock)
      requires At(s) && Told() && e.SkillsAvailable?
      modifies s, view`skills, view`panes, view`hero
      ensures Told() && State() == FoldAt(old(State()), s.id, e, now)
    {
      hide Wired, DockTold, NoticeTold, PanesTold, StreamState.Value, Keyed, Distinct, Put, FoldStream, Values,
           DockMatches, Attended, Carried, DockedNotice, Overflow;
      s.Fields();
      hide FoldAt;
      Attends(s);
      StreamIs(s);
      FoldsSpecially(State(), s.Value(), e, now);
      OnSkillsAvailable(s, e.skills, now);
      Carries(s, e, now);
      HeroFactsAre();
    }

    method HandleSelection(s: StreamState, e: Event, now: Clock)
      requires At(s) && Told() && e.ModelSelected?
      modifies s, view`footer, view`status, view`pending, view`skills, view`hero
      ensures Told() && State() == FoldAt(old(State()), s.id, e, now)
    {
      hide Wired, DockTold, NoticeTold, PanesTold, StreamState.Value, Keyed, Distinct, Put, FoldStream, Values,
           DockMatches, Attended, Carried, DockedNotice, Overflow;
      s.Fields();
      hide FoldAt;
      Attends(s);
      StreamIs(s);
      FoldsSpecially(State(), s.Value(), e, now);
      OnModelSelected(s, e.selection, now);
      Carries(s, e, now);
      HeroFactsAre();
    }

    /** The hero's facts are those of the pure model. */
    lemma HeroFactsAre()
      ensures root.Some? ==> Has(Values(streams), root.value) == Has(streams, root.value)
      ensures root.Some? && Has(streams, root.value) ==>
        HeroFacts(Get(streams, root.value).value) == HeroOf(State(), Get(Values(streams), root.value).value)
    {
      if root.Some? {
        ValuesGet(streams, root.value);
      }
    }

    /** Notices, their turn clock, and cards: the stream itself is left as it is. */
    method HandleNotice(s: StreamState, e: Event, now: Clock)
      requires At(s) && Told() && (IsNotice(e) || e.TurnCommitted?)
      modifies this`turns, this`notices, view`notice, view`overflow
      ensures Told() && State() == FoldAt(old(State()), s.id, e, now)
    {
      hide Wired, DockTold, NoticeTold, PanesTold, StreamState.Value, Keyed, Distinct, Put, Delete, Values,
           DockMatches, Get, DockedNotice, Overflow, Attended, Carried, FoldStream, NoticeKey, Aged;
      s.Fields();
      hide FoldAt;
      Attends(s);
      StreamIs(s);
      FoldsNotice(State(), s.Value(), e, now);
      if e.TurnCommitted? {
        OnTurnCommitted(s, now);
      } else {
        OnNotice(s, e, now);
      }
      Carries(s, e, now);
    }

    method HandleCard(s: StreamState, e: Event, now: Clock)
      requires At(s) && Told() && (e.InteractionRequest? || e.InteractionSettled?)
      modifies this`cards, view`panes
      ensures Told() && State() == FoldAt(old(State()), s.id, e, now)
    {
      hide Wired, DockTold, NoticeTold, PanesTold, StreamState.Value, Keyed, Distinct, Put, Delete, Values,
           DockMatches, Get, DockedNotice, Overflow, Attended, Carried, FoldStream, ParseCard, WithoutStream,
           HeroShown, Sweep, Ticked, Posted, FirstLine;
      s.Fields();
      hide FoldAt;
      Attends(s);
      StreamIs(s);
      FoldsCard(State(), s.Value(), e, now);
      if e.InteractionRequest? {
        OnInteractionRequest(s, e.request, e.uiType, e.payload, now);
      } else {
        OnInteractionSettled(s, e.request, now);
      }
      Carries(s, e, now);
    }

    // ---- announces

    method TitleOf(parent: Option<Id>, call: Option<Id>) returns (title: Option<string>)
      ensures title == TitleFor(old(State()), parent, call)
    {
      title := None;
      if parent.Some? && call.Some? {
        ValuesGet(streams, parent.value);
        if Has(streams, parent.value) {
          var p := Get(streams, parent.value).value;
          if call.value in p.tasks {
            title := TaskTitle(p.tasks[call.value]);
          }
        }
      }
    }

    /** The registration of a stream: a parentless one becomes root, takes the focus and is shown. */
    method RegisterStream(id: Id, parent: Option<Id>, call: Option<Id>) returns (s: StreamState)
      requires Wired()
      modifies this`streams, this`root, this`focused, view`panes, view`home, view`shown
      ensures fresh(s) && s.id == id && s.parent == parent
      ensures s.Value() == Opened(id, parent, TitleFor(old(State()), parent, call), "", "", false)
      ensures streams == Put(old(streams), id, s)
      ensures parent.Some? ==>
        && root == old(root) && focused == old(focused)
        && view.panes == old(view.panes) && view.home == old(view.home) && view.shown == old(view.shown)
      ensures parent.None? ==>
        && root == Some(id) && focused == Some(id) && view.shown == Some(id)
        && view.home == (if old(view.home).None? then Some(id) else old(view.home))
        && view.panes <= old(view.panes) + {Some(id)}
    {
      hide Keyed, Distinct, TitleFor, Put, Values;
      var title := TitleOf(parent, call);
      s := new StreamState(id, parent);
      s.title := title;
      streams := Put(streams, id, s);
      if parent.None? {
        root := Some(id);
        focused := Some(id);
        view.ShowStream(id);
      }
    }

    /** The session's facts start over; a root's are shown at once, a child's are in the background. */
    method ResetFacts(s: StreamState, path: string, cwd: string, resumed: bool)
      requires At(s) && (s.parent.None? <==> Some(s.id) == focused) && (s.parent.None? ==> root == Some(s.id))
      modifies s
      modifies this`heroActive, view`footer, view`status, view`pending, view`skills, view`hero
      ensures s.Value() == Reset(old(s.Value()), path, cwd, resumed)
      ensures heroActive == (s.parent.None? && !resumed)
      ensures s.parent.None? ==> Attended(s)
      ensures s.parent.Some? ==>
        && view.footer == old(view.footer) && view.status == old(view.status)
        && view.pending == old(view.pending) && view.skills == old(view.skills)
      ensures view.hero == if heroActive then Some(HeroFacts(s)) else old(view.hero)
    {
      hide Keyed, Distinct, Get;
      s.Open(path, cwd, resumed);
      if Some(s.id) == focused {
        view.skills := s.skills;
      }
      heroActive := s.parent.None? && !resumed;
      if s.parent.None? {
        EmitFocusedState();
        EmitHero();
      }
    }

    /** The announce, before its dock facts are weighed. */
    method Enroll(id: Id, parent: Option<Id>, call: Option<Id>, path: string, cwd: string, resumed: bool)
      returns (s: StreamState)
      requires Wired() && PanesTold() && (parent.Some? ==> focused != Some(id))
      modifies this`streams, this`root, this`focused, this`heroActive
      modifies view`footer, view`status, view`pending, view`skills, view`hero, view`panes, view`home, view`shown
      ensures Wired() && PanesTold() && fresh(Objects(streams) - old(Objects(streams)))
      ensures Values(streams) == Put(old(Values(streams)), id, s.Value())
      ensures s.id == id && s.parent == parent
      ensures s.Value() == Opened(id, parent, TitleFor(old(State()), parent, call), path, cwd, resumed)
      ensures heroActive == (parent.None? && !resumed)
      ensures view.hero == if heroActive then Some(HeroFacts(s)) else old(view.hero)
      ensures parent.None? ==> root == Some(id) && focused == Some(id) && Attended(s)
                               && view.home == if old(view.home).None? then Some(id) else old(view.home)
      ensures parent.Some? ==>
        && root == old(root) && focused == old(focused) && view.home == old(view.home)
        && view.footer == old(view.footer) && view.status == old(view.status)
        && view.pending == old(view.pending) && view.skills == old(view.skills)
    {
      hide Reset, Opened, Keyed, Distinct, Values, TitleFor, Put, Get, FooterOf, StatusOf, Attended, HeroFacts,
           StreamState.Value, Wired, PanesTold, NonEmpty;
      s := RegisterStream(id, parent, call);
      Registered(s);
      ResetFacts(s, path, cwd, resumed);
      Enrolled(s);
      PanesAfter(id, parent);
      ResetOpened(id, parent, TitleFor(old(State()), parent, call), path, cwd, resumed);
    }

    twostate lemma Registered(new s: StreamState)
      requires old(Wired()) && streams == Put(old(streams), s.id, s)
      ensures At(s)
    {
      GetPut(old(streams), s.id, s, s.id);
      KeyedPut(old(streams), s);
      PutDistinct(old(streams), s.id, s);
    }

    twostate lemma PanesAfter(new id: Id, new parent: Option<Id>)
      requires old(PanesTold()) && Has(streams, id)
      requires forall other {:trigger Has(streams, other)} :: Has(old(streams), other) ==> Has(streams, other)
      requires parent.Some? ==>
        focused == old(focused) && view.panes == old(view.panes) && view.home == old(view.home)
          && view.shown == old(view.shown)
      requires parent.None? ==>
        && focused == Some(id) && view.shown == Some(id) && view.panes <= old(view.panes) + {Some(id)}
        && view.home == if old(view.home).None? then Some(id) else old(view.home)
      ensures PanesTold()
    {
    }

    method OnSessionOpened(id: Id, parent: Option<Id>, call: Option<Id>, path: string, cwd: string, resumed: bool)
      requires Told() && (parent.Some? ==> !Has(streams, id) && focused != Some(id))
      modifies this`streams, this`root, this`focused, this`heroActive
      modifies view`footer, view`status, view`pending, view`skills, view`hero, view`panes, view`home, view`shown
      ensures Told() && fresh(Objects(streams) - old(Objects(streams)))
      ensures State() == Announced(old(State()), id, parent, call, path, cwd, resumed)
    {
      hide Wired, PanesTold, DockMatches, Values, TitleFor, DockedNotice, Overflow, Attended, Announced,
           HeroFacts, Objects;
      ghost var was := State();
      var s := Enroll(id, parent, call, path, cwd, resumed);
      if parent.None? {
        RootTold(was, s, call, path, cwd, resumed);
      } else {
        ChildTold(was, s, call, path, cwd, resumed);
      }
    }

    /** The mode right after `s` was announced, before its dock facts are weighed. */
    twostate predicate Enrols(new s: StreamState)
      reads this, view, s, Objects(streams)
    {
      && unchanged(this`channel, this`checking, this`notices, this`turns, this`cards, this`resting)
      && unchanged(this`sessionsOnDisk, this`modelCounts, this`extensions, view`rows, view`visible)
      && Values(streams) == Put(old(Values(streams)), s.id, s.Value())
    }

    twostate lemma RootTold(new was: Mode, new s: StreamState, new call: Option<Id>, new path: string, new cwd: string,
                            new resumed: bool)
      requires was == old(State()) && Enrols(s) && s.parent.None? && root == Some(s.id) && focused == Some(s.id)
        && Attended(s)
      requires s.Value() == Opened(s.id, None, TitleFor(was, None, call), path, cwd, resumed)
      requires heroActive == !resumed && view.hero == if heroActive then Some(HeroFacts(s)) else was.hero
      requires view.home == if was.home.None? then Some(s.id) else was.home
      ensures DockTold() && State() == Announced(was, s.id, None, call, path, cwd, resumed)
    {
      hide Put, Get;
      GetPut(was.streams, s.id, s.Value(), s.id);
    }

    twostate lemma ChildTold(new was: Mode, new s: StreamState, new call: Option<Id>, new path: string, new cwd: string,
                             new resumed: bool)
      requires was == old(State()) && Enrols(s) && s.parent.Some? && root == was.root && focused == was.focused
        && focused != Some(s.id)
      requires DockMatches(was, view.footer, view.status, view.pending, view.skills)
      requires s.Value() == Opened(s.id, s.parent, TitleFor(was, s.parent, call), path, cwd, resumed)
      requires !heroActive && view.hero == was.hero && view.home == was.home
      ensures DockTold() && State() == Announced(was, s.id, s.parent, call, path, cwd, resumed)
    {
      if focused.Some? {
        GetPut(was.streams, s.id, s.Value(), focused.value);
      }
      DockStays(was, State(), view.footer, view.status, view.pending, view.skills);
    }

    /** A new object under its key: the table's values gain it, and no key is lost. */
    twostate lemma Enrolled(new s: StreamState)
      requires !old(allocated(s)) && streams == Put(old(streams), s.id, s)
      requires forall o :: o in Objects(old(streams)) ==> o.Value() == old(o.Value())
      ensures Values(streams) == Put(old(Values(streams)), s.id, s.Value())
      ensures forall other {:trigger Has(streams, other)} :: Has(old(streams), other) ==> Has(streams, other)
      ensures fresh(Objects(streams) - old(Objects(streams)))
    {
      Same(old(streams));
      ValuesPut(old(streams), s.id, s);
      PutKeepsHas(old(streams), s.id, s);
    }

    // ---- frames

    method Handle(s: StreamState, e: Event, now: Clock) returns (threw: bool)
      requires At(s) && Told() && !e.SessionOpened? && Trees.WellFormed(s.tree)
      modifies this, view, s
      ensures Told() && Objects(streams) <= old(Objects(streams)) && (threw <==> Throws(old(s.Value()), e))
      ensures State() == FoldAt(old(State()), s.id, e, now) && view.report == old(view.report)
    {
      hide Told, StreamState.Value, Values, Wired, PanesTold, NoticeTold, DockTold, FoldAt, Throws, Trees.WellFormed;
      threw := false;
      NeverThrows(s.Value(), e);
      if IsQueueEvent(e) {
        threw := HandleQueue(s, e, now);
      } else if IsRunEvent(e) {
        HandleRun(s, e, now);
      } else if IsTurnEvent(e) {
        threw := HandleTurn(s, e, now);
      } else if IsToolEvent(e) {
        threw := HandleTool(s, e, now);
      } else if IsCompactionEvent(e) {
        threw := HandleCompaction(s, e, now);
      } else if e.SkillsAvailable? {
        HandleSkills(s, e, now);
      } else if e.ModelSelected? {
        HandleSelection(s, e, now);
      } else if IsNotice(e) || e.TurnCommitted? {
        HandleNotice(s, e, now);
      } else if e.InteractionRequest? || e.InteractionSettled? {
        HandleCard(s, e, now);
      } else if e.SessionClosed? {
        OnSessionClosed(s, e.id, now);
      } else {
        OnlyLogged(s, e, now);
      }
    }

    /** Events that no fact of the mode depends on. */
    lemma OnlyLogged(s: StreamState, e: Event, now: Clock)
      requires At(s) && (e.NativeItem? || e.CompactionDelta? || e.CompactionRetried? || IsGlobal(e))
      ensures State() == FoldAt(State(), s.id, e, now)
    {
      ValuesGet(streams, s.id);
      LoggedChangesNothing(State(), s.id, e, now);
    }

    method Relist(now: Clock)
      requires Told()
      modifies this`streams, view`rows, view`visible, view`panes
      ensures Told() && Objects(streams) <= old(Objects(streams))
      ensures State() == Relisted(old(State()), now)
    {
      hide Wired, PanesTold, DockMatches, Relisted, Values;
      ghost var was := State();
      EmitSubagents(now);
      RelistedNames(was, now);
      DockStays(was, State(), view.footer, view.status, view.pending, view.skills);
    }

    /** Backend-level facts changed, no stream did. */
    twostate lemma NoStreamChanged()
      requires old(Wired())
      requires unchanged(this`streams, this`root, this`focused, this`notices, this`turns, this`cards, this`resting)
      requires unchanged(this`heroActive, view`rows, view`visible, view`home)
      requires forall o :: o in Objects(streams) ==> o.Value() == old(o.Value())
      ensures State() == old(State()).(channel := channel, checking := checking, sessionsOnDisk := sessionsOnDisk,
                                       modelCounts := modelCounts, extensions := extensions, hero := view.hero)
      ensures old(DockTold()) && DockUntouched() ==> DockTold()
    {
      Same(streams);
      if DockUntouched() {
        DockStays(old(State()), State(), view.footer, view.status, view.pending, view.skills);
      }
    }

    twostate predicate DockUntouched()
      reads this`channel, this`checking, view`footer, view`status, view`pending, view`skills
    {
      unchanged(this`channel, this`checking) && unchanged(view`footer, view`status, view`pending, view`skills)
    }

    /** The inventories: each is a line of the hero while the hero is up, else a note. */
    method HandleSessions(count: nat)
      requires Told()
      modifies this`sessionsOnDisk, view`hero, view`panes
      ensures Told() && State() == FoldGlobal(old(State()), SessionsAvailable(count))
    {
      hide FoldGlobal, NoticeTold, StreamState.Value, Wired, Values, DockMatches, DockTold, DockedNotice,
           Overflow, HeroFacts;
      sessionsOnDisk := Some(count);
      ShowInventory();
      FoldsGlobal(old(State()), SessionsAvailable(count));
      NoStreamChanged();
      HeroFactsAre();
    }

    method HandleExtensions(names: seq<string>, dead: nat)
      requires Told()
      modifies this`extensions, view`hero, view`panes
      ensures Told() && State() == FoldGlobal(old(State()), ExtensionsAvailable(names, dead))
    {
      hide FoldGlobal, NoticeTold, StreamState.Value, Wired, Values, DockMatches, DockTold, DockedNotice,
           Overflow, HeroFacts;
      extensions := Some((names, dead));
      ShowExtensions(dead);
      FoldsGlobal(old(State()), ExtensionsAvailable(names, dead));
      NoStreamChanged();
      HeroFactsAre();
    }

    method HandleModels(counts: seq<nat>)
      requires Told()
      modifies this`modelCounts, view`hero
      ensures Told() && State() == FoldGlobal(old(State()), ModelsAvailable(counts))
    {
      hide FoldGlobal, NoticeTold, PanesTold, StreamState.Value, Wired, Values, DockMatches, DockTold,
           DockedNotice, Overflow, HeroFacts;
      modelCounts := counts;
      EmitHero();
      FoldsGlobal(old(State()), ModelsAvailable(counts));
      NoStreamChanged();
      HeroFactsAre();
    }

    method HandleProviders(status: string)
      requires Told()
      modifies this`checking, this`channel, view`footer, view`status, view`pending, view`skills
      ensures Told() && State() == FoldGlobal(old(State()), ProvidersAvailable(status))
    {
      hide FoldGlobal, Wired, NoticeTold, PanesTold, DockMatches, StreamState.Value, Keyed, Distinct, Values,
           DockedNotice, Overflow, Has, FooterOf, StatusOf;
      checking := false;
      channel := Some(status);
      EmitFocusedState();
      FoldsGlobal(old(State()), ProvidersAvailable(status));
      NoStreamChanged();
      DockFromFocus();
    }

    lemma DockFromFocus()
      requires focused.Some? && Has(streams, focused.value) ==>
        var s := Get(streams, focused.value).value.Value();
        && view.footer == Some(FooterOf(root, channel, s)) && view.status == StatusOf(checking, s)
        && view.pending == s.pending && view.skills == s.skills
      ensures DockTold()
    {
      FocusedIs();
    }

    lemma FocusedIs()
      ensures FocusedStream(State()) ==
              if focused.Some? && Has(streams, focused.value) then Some(Get(streams, focused.value).value.Value())
                else None
    {
      if focused.Some? {
        ValuesGet(streams, focused.value);
      }
    }

    method HandleGlobal(e: Event)
      requires Told() && IsGlobal(e)
      modifies this`sessionsOnDisk, this`extensions, this`modelCounts, this`checking, this`channel
      modifies view`hero, view`panes, view`footer, view`status, view`pending, view`skills
      ensures Told() && State() == FoldGlobal(old(State()), e)
    {
      match e {
        case SessionsAvailable(count) => HandleSessions(count);
        case ExtensionsAvailable(names, dead) => HandleExtensions(names, dead);
        case ModelsAvailable(counts) => HandleModels(counts);
        case ProvidersAvailable(status) => HandleProviders(status);
      }
    }

    /** The hero carries the inventory line of a fresh boot; elsewhere it is a note. */
    method ShowInventory()
      modifies view`hero, view`panes
      ensures view.hero == if heroActive && root.Some? && Has(streams, root.value)
                           then Some(HeroFacts(Get(streams, root.value).value)) else old(view.hero)
      ensures view.panes <= old(view.panes) + {view.home}
    {
      if heroActive {
        EmitHero();
      } else {
        view.Write(None);
      }
    }

    /** Dead extensions are noted wherever the inventory shows. */
    method ShowExtensions(dead: nat)
      modifies view`hero, view`panes
      ensures view.hero == if heroActive && root.Some? && Has(streams, root.value)
                           then Some(HeroFacts(Get(streams, root.value).value)) else old(view.hero)
      ensures view.panes <= old(view.panes) + {view.home}
    {
      if dead > 0 {
        view.Write(None);
      }
      ShowInventory();
    }

    /** The registered stream that folds an event. */
    method Resolve(stream: Option<Id>, e: Event) returns (s: Option<StreamState>)
      requires Wired()
      ensures match Target(State(), stream, e)
        case None => s.None?
        case Some(id) => s.Some? && s.value.id == id && At(s.value) && s.value in Objects(streams)
    {
      var named := if stream.Some? then stream else if e.SessionClosed? then Some(e.id) else root;
      if named.None? || !Has(streams, named.value) {
        if named.Some? {
          ValuesGet(streams, named.value);
        }
        return None;
      }
      ValuesGet(streams, named.value);
      KeyedGet(streams, named.value);
      return Some(Get(streams, named.value).value);
    }

    method DispatchWire(stream: Option<Id>, e: Event, now: Clock) returns (threw: bool)
      requires Told() && Fit(State()) && Announces(State(), Wire(stream, e))
      requires !IsStartupFailure(State(), Wire(stream, e))
      modifies this, view, Objects(streams)
      ensures Told() && State() == FoldWire(old(State()), stream, e, now) && view.report == old(view.report)
      ensures fresh(Objects(streams) - old(Objects(streams)))
      ensures threw <==> FrameThrows(old(State()), Wire(stream, e))
    {
      hide Fit, Announces, Target, IsStartupFailure, StreamState.Value, Told, Announced, Relisted, FoldAt,
           FoldGlobal, Values, Keyed, IsGlobal, IsNotice, Posted, Delete, FoldWire, ThrowsAt;
      threw := false;
      FoldsWire(State(), stream, e, now);
      if e.SessionOpened? {
        if e.parent.Some? {
          LegalChild(State(), stream, e);
        }
        Announce(e, now);
        return;
      }
      if IsGlobal(e) {
        HandleGlobal(e);
        return;
      }
      if stream.None? && IsNotice(e) {
        FoldBackendNotice(e);
        return;
      }
      threw := FoldIntoStream(stream, e, now);
    }

    /** A stream's own announce, and the list told of it. */
    method Announce(e: Event, now: Clock)
      requires Told() && Fit(State()) && e.SessionOpened? && (e.parent.Some? ==> !Has(Values(streams), e.id))
      modifies this, view
      ensures Told() && view.report == old(view.report) && fresh(Objects(streams) - old(Objects(streams)))
      ensures State() == Relisted(Announced(old(State()), e.id, e.parent, e.parentCall, e.path, e.cwd, e.resumed), now)
    {
      hide Fit, Told, Announced, Relisted, Values;
      if e.parent.Some? {
        FocusIsNotNew(e.id);
      }
      OnSessionOpened(e.id, e.parent, e.parentCall, e.path, e.cwd, e.resumed);
      Relist(now);
    }

    method FoldIntoStream(stream: Option<Id>, e: Event, now: Clock) returns (threw: bool)
      requires Told() && !e.SessionOpened? && Fit(State())
      modifies this, view, Objects(streams)
      ensures Told() && view.report == old(view.report) && Objects(streams) <= old(Objects(streams))
      ensures State() == match Target(old(State()), stream, e)
        case None => old(State())
        case Some(id) =>
          if ThrowsAt(old(State()), id, e) then FoldAt(old(State()), id, e, now)
          else Relisted(FoldAt(old(State()), id, e, now), now)
      ensures threw <==> match Target(old(State()), stream, e)
        case None => false
        case Some(id) => ThrowsAt(old(State()), id, e)
    {
      hide StreamState.Value, Told, Relisted, FoldAt, Values, Keyed, Target, Throws, Trees.WellFormed;
      ToldIsWired();
      threw := false;
      var s := Resolve(stream, e);
      if s.Some? {
        TreeFits(s.value, e);
        threw := Handle(s.value, e, now);
        if !threw {
          Relist(now);
        }
      }
    }

    lemma TreeFits(s: StreamState, e: Event)
      requires At(s) && Fit(State())
      ensures Trees.WellFormed(s.tree) && (ThrowsAt(State(), s.id, e) <==> Throws(s.Value(), e))
    {
      hide Throws, Trees.WellFormed;
      StreamIs(s);
      assert Has(State().streams, s.id);
      s.Fields();
    }

    lemma ToldIsWired()
      requires Told()
      ensures Wired()
    {
    }

    lemma FocusIsNotNew(id: Id)
      requires Fit(State()) && !Has(Values(streams), id)
      ensures !Has(streams, id) && focused != Some(id)
    {
      ValuesGet(streams, id);
    }

    /** A condition of the process: its key is bare. */
    method FoldBackendNotice(e: Event)
      requires Told() && IsNotice(e)
      modifies this`notices, view`notice, view`overflow
      ensures Told()
      ensures State() == old(State()).(notices :=
        if e.Noticed? then Posted(old(State()), e.notice, e.level, e.text).notices else Delete(old(notices), e.notice))
    {
      hide StreamState.Value, Wired, Values, DockMatches, DockedNotice, Overflow, Put, Delete;
      ghost var was := State();
      if e.Noticed? {
        FoldNotice(e.notice, e.level, e.text);
      } else {
        ClearNotice(e.notice);
      }
      Same(streams);
      DockStays(was, State(), view.footer, view.status, view.pending, view.skills);
    }

    /** `fatal`: the report of another protocol version, or the startup failure. */
    method Dispatch(f: Frame, now: Clock) returns (fatal: bool, threw: bool)
      requires Told() && Fit(State()) && Announces(State(), f)
      modifies this, view, Objects(streams)
      ensures Told() && State() == Fold(old(State()), f, now) && view.report == old(view.report)
      ensures fresh(Objects(streams) - old(Objects(streams)))
      ensures fatal <==> (f.Version? && f.version != PROTOCOL_VERSION) || IsStartupFailure(old(State()), f)
      ensures threw <==> FrameThrows(old(State()), f)
    {
      hide Told, FoldWire, Fit, Values, ThrowsAt, Announces;
      threw := false;
      match f
      case Version(version) => fatal := version != PROTOCOL_VERSION;
      case CatalogStatus =>
        fatal := false;
        StartChecking();
      case ProtocolError =>
        fatal := false;
        NoteNowhere();
      case Unknown =>
        fatal := false;
        NoteNowhere();
      case Wire(stream, e) =>
        if stream.None? && e.Noticed? && e.notice == "startup" && e.level == Severe && root.None? {
          return true, false;
        }
        fatal := false;
        threw := DispatchWire(stream, e, now);
    }

    /** A note that names no stream. */
    method NoteNowhere()
      requires Told()
      modifies view`panes
      ensures Told() && State() == old(State())
    {
      hide Wired, Values, DockMatches, DockedNotice, Overflow;
      view.Write(None);
      Same(streams);
    }

    method StartChecking()
      requires Told()
      modifies this`checking, view`status
      ensures Told() && State() == old(State()).(checking := true)
    {
      hide StreamState.Value, Keyed, Distinct, Values, DockedNotice, Overflow, FooterOf;
      checking := true;
      EmitStrip();
      NoStreamChanged();
      FocusedIs();
    }

    /** The strip while a catalog check is in flight. */
    method EmitStrip()
      requires Wired()
      modifies view`status
      ensures match (if focused.None? then None else Get(streams, focused.value))
        case Some(s) => view.status == StatusOf(checking, s.Value())
        case None => view.status == if checking then Checking else old(view.status)
    {
      var s := if focused.None? then None else Get(streams, focused.value);
      if s.Some? {
        view.status := StatusText(s.value);
      } else if checking {
        view.status := Checking;
      }
    }

    /** A frame that throws has told the dock of what it did, and nobody else; under the wire's contract
        none does. */
    method HandleFrame(f: Frame, now: Clock) returns (fatal: bool, threw: bool)
      requires Told() && Fit(State()) && Announces(State(), f)
      modifies this, view, Objects(streams)
      ensures Told() && State() == Step(old(State()), Arrives(f), now)
      ensures threw <==> FrameThrows(old(State()), f)
      ensures if threw then view.report == old(view.report) else ReportTold() && view.report.Some?
      ensures old(Sane(State())) && ChecksOut(old(State()), f) ==> !threw && Sane(State())
      ensures fresh(Objects(streams) - old(Objects(streams)))
      ensures fatal <==> (f.Version? && f.version != PROTOCOL_VERSION) || IsStartupFailure(old(State()), f)
    {
      hide Sane, Fold, Announces, ChecksOut, Values, Fit, FrameThrows;
      if Sane(State()) && ChecksOut(State(), f) {
        StepKeepsSane(State(), Arrives(f), now);
        NoFrameThrows(State(), f);
      }
      fatal, threw := Dispatch(f, now);
      if !threw {
        Report();
      }
    }

    /** The program status crosses last. */
    method Report()
      requires Told()
      modifies view`report
      ensures Told() && ReportTold() && view.report.Some? && State() == old(State())
    {
      hide Wired, Values, DockMatches, DockedNotice, Overflow;
      ReportProgramStatus();
      Same(streams);
    }

    // ---- user actions

    /** Focus moves: the pane is swapped, every dock fact is told again, and the sweep runs. */
    method FocusStream(id: Id)
      requires Told() && ReportTold() && Sane(State())
      modifies this`focused, this`streams, view`panes, view`home, view`shown
      modifies view`footer, view`status, view`pending, view`skills
      ensures Told() && ReportTold() && Sane(State()) && Objects(streams) <= old(Objects(streams))
      ensures State() == Step(old(State()), Focuses(id), 0)
    {
      hide StreamState.Value, Sane, Values, Sweep, Tidy, DockMatches, DockedNotice, Overflow;
      StepKeepsSane(State(), Focuses(id), 0);
      ValuesGet(streams, id);
      if Some(id) == focused || !Has(streams, id) {
        return;
      }
      ghost var was := State();
      SaneIsTidy(was);
      ShowFocused(id);
      assert ReportTold() by {
        assert State().streams == was.streams && State().cards == was.cards && State().resting == was.resting;
      }
      ReportSurvives();
      SweepAndNote(None);
    }

    /** A sweep leaves the program status as it was told. */
    lemma ReportSurvives()
      requires Tidy(Values(streams)) && ReportTold()
      ensures view.report.Some? ==>
        view.report == Some(ReportOf(cards, Sweep(State()).streams, resting))
    {
      SweepKeepsReport(State());
    }

    method ShowFocused(id: Id)
      requires Told() && Has(streams, id)
      modifies this`focused, view`panes, view`home, view`shown
      modifies view`footer, view`status, view`pending, view`skills
      ensures Told() && State() == ShownStream(old(State()), id)
    {
      hide DockMatches, StreamState.Value, Keyed, Distinct, Values, DockedNotice, Overflow, FooterOf, StatusOf,
           Get;
      focused := Some(id);
      view.ShowStream(id);
      EmitFocusedState();
      Same(streams);
      DockFromFocus();
    }

    /** Esc: off the root, walk to the parent; on a running root, abort it. `aborted` names the stream
        whose run is aborted. */
    method Escape() returns (acted: bool, aborted: Option<Id>)
      requires Told() && ReportTold() && Sane(State())
      modifies this`focused, this`streams, view`panes, view`home, view`shown
      modifies view`footer, view`status, view`pending, view`skills
      ensures Told() && ReportTold() && Sane(State())
      ensures State() == Step(old(State()), PressesEscape, 0)
      ensures aborted == match FocusedStream(old(State()))
        case None => None
        case Some(s) => if old(focused) == old(root) && s.running then old(root) else None
      ensures acted <==> (old(focused).Some? && old(focused) != old(root)) || aborted.Some?
    {
      hide Sane, Values, FocusOn;
      EscapedIs(State());
      hide Escaped, EscapeTarget;
      FocusedIs();
      SaneFocus();
      if focused.None? || !Has(streams, focused.value) {
        return false, None;
      }
      var s := Get(streams, focused.value).value;
      KeyedGet(streams, focused.value);
      s.Fields();
      hide StreamState.Value;
      if Some(s.id) != root {
        FocusStream(if s.parent.Some? then s.parent.value else if root.Some? then root.value else s.id);
        return true, None;
      }
      if s.running {
        return true, root;
      }
      return false, None;
    }

    lemma SaneFocus()
      requires Sane(State())
      ensures focused.Some? ==> Has(streams, focused.value)
    {
      if focused.Some? {
        ValuesGet(streams, focused.value);
      }
    }

    /** `sentTo` is the stream whose request is answered. */
    method AnswerCard(request: Id, now: Clock) returns (sentTo: Option<Id>)
      requires Told() && ReportTold() && Sane(State())
      modifies this`cards, this`streams, view`rows, view`visible, view`panes, view`report
      ensures Told() && ReportTold() && Sane(State())
      ensures State() == Step(old(State()), Answers(request), now)
      ensures sentTo == match Get(old(cards), request) case None => None case Some(open) => Some(open.stream)
    {
      hide Sane, Values, Relisted, StreamState.Value, DockMatches, Keyed, Distinct, DockedNotice, Overflow;
      StepKeepsSane(State(), Answers(request), now);
      if !Has(cards, request) {
        return None;
      }
      sentTo := Some(Get(cards, request).value.stream);
      TakeDown(request);
      Relist(now);
      Report();
    }

    method TakeDown(request: Id)
      requires Told()
      modifies this`cards
      ensures Told() && cards == Delete(old(cards), request) && State() == old(State()).(cards := cards)
    {
      hide Wired, Values, DockMatches, DockedNotice, Overflow;
      ghost var was := State();
      cards := Delete(cards, request);
      Same(streams);
      DockStays(was, State(), view.footer, view.status, view.pending, view.skills);
    }

    /** The list's hide clock: a row that hid sets off the sweep. */
    method ClockRings(now: Clock)
      requires Told() && ReportTold() && Sane(State())
      modifies this`streams, view`visible, view`panes
      ensures Told() && ReportTold() && Sane(State())
      ensures State() == Step(old(State()), Action.ClockRings, now)
    {
      hide Sane, Values, Sweep, VisibleIn;
      StepKeepsSane(State(), Action.ClockRings, now);
      var hid := Refilter(now);
      if hid {
        SweepAndNote(None);
      }
    }

    method Refilter(now: Clock) returns (hid: bool)
      requires Told() && ReportTold() && Sane(State())
      modifies view`visible
      ensures Told() && ReportTold()
      ensures State() == old(State()).(visible := VisibleIn(view.rows, now))
      ensures hid <==> !(old(view.visible) <= view.visible)
      ensures view.report.Some? ==> view.report == Some(ReportOf(cards, Sweep(State()).streams, resting))
    {
      hide Wired, Values, DockMatches, DockedNotice, Overflow, VisibleIn;
      ghost var was := State();
      hid := view.Reproject(now);
      Same(streams);
      DockStays(was, State(), view.footer, view.status, view.pending, view.skills);
      SaneIsTidy(was);
      SweepKeepsReport(State());
    }

    /** A command of the user's goes to the focused stream, unless it is closed. */
    method SendToFocused() returns (sentTo: Option<Id>)
      requires Told() && Sane(State())
      modifies view`panes
      ensures Told() && State() == old(State())
      ensures sentTo == match FocusedStream(State())
        case None => None
        case Some(s) => if s.closed then None else Some(s.id)
    {
      hide Sane, Wired, Values, DockMatches, DockedNotice, Overflow;
      FocusedIs();
      if focused.None? || !Has(streams, focused.value) {
        return None;
      }
      var s := Get(streams, focused.value).value;
      if s.closed {
        view.Write(focused);
        Same(streams);
        return None;
      }
      return Some(s.id);
    }
  }

  lemma EscapedIs(m: Mode)
    ensures match FocusedStream(m)
      case None => Escaped(m) == m
      case Some(s) => Escaped(m) == if Some(s.id) == m.root then m else FocusOn(m, EscapeTarget(m, s))
    ensures forall s ::
      EscapeTarget(m, s) == if s.parent.Some? then s.parent.value else if m.root.Some? then m.root.value else s.id
  {
    hide FocusOn;
  }

  lemma SaneIsTidy(m: Mode)
    requires Sane(m)
    ensures Tidy(m.streams)
  {
  }

  lemma {:induction false} KeyedGet(ss: Assoc<Id, StreamState>, id: Id)
    requires Keyed(ss) && Has(ss, id)
    ensures Get(ss, id).value.id == id
  {
    if ss[0].0 != id {
      KeyedGet(ss[1..], id);
    }
  }

  lemma LoggedChangesNothing(m: Mode, id: Id, e: Event, now: Clock)
    requires e.NativeItem? || e.CompactionDelta? || e.CompactionRetried? || IsGlobal(e)
    ensures FoldAt(m, id, e, now) == m
  {
    hide Put, Get, FoldStream;
    if Get(m.streams, id).Some? {
      assert Has(m.streams, id);
      PutSame(m.streams, id);
      LoggedFoldsNothing(Get(m.streams, id).value, e, now);
    }
  }

  lemma ResetOpened(id: Id, parent: Option<Id>, title: Option<string>, path: string, cwd: string, resumed: bool)
    ensures Reset(Opened(id, parent, title, "", "", false), path, cwd, resumed) ==
      Opened(id, parent, title, path, cwd, resumed)
  {
  }

  lemma FoldsGlobal(m: Mode, e: Event)
    ensures e.SessionsAvailable? ==> FoldGlobal(m, e) == HeroShown(m.(sessionsOnDisk := Some(e.count)))
    ensures e.ExtensionsAvailable? ==> FoldGlobal(m, e) == HeroShown(m.(extensions := Some((e.names, e.dead))))
    ensures e.ModelsAvailable? ==> FoldGlobal(m, e) == HeroShown(m.(modelCounts := e.modelCounts))
    ensures e.ProvidersAvailable? ==> FoldGlobal(m, e) == m.(checking := false, channel := Some(e.channel))
  {
  }

  lemma FoldsWire(m: Mode, stream: Option<Id>, e: Event, now: Clock)
    ensures e.SessionOpened? ==>
      FoldWire(m, stream, e, now) == Relisted(Announced(m, e.id, e.parent, e.parentCall, e.path, e.cwd, e.resumed), now)
    ensures IsGlobal(e) ==> FoldWire(m, stream, e, now) == FoldGlobal(m, e)
    ensures stream.None? && IsNotice(e) ==>
      FoldWire(m, stream, e, now) == m.(notices := if e.Noticed? then Posted(m, e.notice, e.level, e.text).notices
                                                   else Delete(m.notices, e.notice))
    ensures !e.SessionOpened? && !IsGlobal(e) && !(stream.None? && IsNotice(e)) ==>
      FoldWire(m, stream, e, now) ==
        match Target(m, stream, e)
        case None => m
        case Some(id) => if ThrowsAt(m, id, e) then FoldAt(m, id, e, now) else Relisted(FoldAt(m, id, e, now), now)
  {
    hide ThrowsAt, Relisted, Announced, FoldGlobal, FoldAt, Target, Put, Delete;
  }

  lemma LegalChild(m: Mode, stream: Option<Id>, e: Event)
    requires Announces(m, Wire(stream, e)) && e.SessionOpened? && e.parent.Some?
    ensures !Has(m.streams, e.id)
  {
  }

  lemma LoggedFoldsNothing(s: Stream, e: Event, now: Clock)
    requires e.NativeItem? || e.CompactionDelta? || e.CompactionRetried? || IsGlobal(e)
    ensures FoldStream(s, e, now) == s
  {
    FoldUntouched(s, e, now);
    hide FoldStream;
  }

  lemma RelistedNames(m: Mode, now: Clock)
    ensures var n := Relisted(m, now);
      n.root == m.root && n.focused == m.focused && n.channel == m.channel && n.checking == m.checking
  {
  }

  lemma PutKeepsHas(ss: Assoc<Id, StreamState>, id: Id, s: StreamState)
    ensures forall other {:trigger Has(Put(ss, id, s), other)} ::
              Has(ss, other) ==> Has(Put(ss, id, s), other)
  {
    forall other | Has(ss, other)
      ensures Has(Put(ss, id, s), other)
    {
      GetPut(ss, id, s, other);
    }
  }

  /** The facts of a stream that its footer shows. */
  ghost predicate SameFacts(v: Stream, w: Stream) {
    && w.id == v.id && w.title == v.title && w.path == v.path && w.cwd == v.cwd && w.selection == v.selection
    && w.resumed == v.resumed && w.spend == v.spend && w.contextUsed == v.contextUsed
    && w.running == v.running && w.closed == v.closed
  }

  lemma SameFooter(root: Option<Id>, channel: Option<string>, v: Stream, w: Stream)
    requires SameFacts(v, w)
    ensures FooterOf(root, channel, v) == FooterOf(root, channel, w)
  {
  }

  predicate IsQueueEvent(e: Event) {
    e.UserMessage? || e.MessageQueued? || e.MessagesDiscarded?
  }

  predicate IsRunEvent(e: Event) {
    e.RunFinished? || e.RunAborted? || e.RunFailed?
  }

  predicate IsTurnEvent(e: Event) {
    e.TurnStarted? || e.TextDelta? || e.ReasoningDelta? || e.TurnRetried? || e.TurnTruncated? || e.CompletionCall?
  }

  predicate IsToolEvent(e: Event) {
    e.ToolCalled? || e.ToolResult? || e.ReplayBegin? || e.ReplayEnd? || e.CheckedOut?
  }

  predicate IsCompactionEvent(e: Event) {
    e.CompactionBegin? || e.CompactionStep? || e.CompactionEnd? || e.CompactionFailed?
  }

  // What single events make of the mode and of a stream, for the handlers.

  lemma FoldsRun(m: Mode, s: Stream, e: Event, now: Clock)
    requires Get(m.streams, s.id) == Some(s) && IsRunEvent(e)
    ensures FoldAt(m, s.id, e, now) ==
            m.(streams := Put(m.streams, s.id, FoldStream(s, e, now)),
               resting := if e.RunFinished? then Done else if e.RunAborted? then Unstarted
                          else if e.RunFailed? then Troubled(FirstLine(e.message)) else m.resting,
               cards := if e.RunFinished? || e.RunAborted? then WithoutStream(m.cards, s.id) else m.cards)
  {
  }

  lemma FoldsQuietly(m: Mode, s: Stream, e: Event, now: Clock)
    requires Get(m.streams, s.id) == Some(s) && (IsQueueEvent(e) || IsTurnEvent(e) || IsToolEvent(e))
    ensures FoldAt(m, s.id, e, now) == m.(streams := Put(m.streams, s.id, FoldStream(s, e, now)))
  {
    hide FoldStream, Put;
  }

  lemma FoldsCompaction(m: Mode, s: Stream, e: Event, now: Clock)
    requires Get(m.streams, s.id) == Some(s) && IsCompactionEvent(e)
    ensures FoldAt(m, s.id, e, now) ==
            m.(streams := Put(m.streams, s.id, FoldStream(s, e, now)),
               resting := if e.CompactionEnd? then Done
                          else if e.CompactionFailed? then Troubled(FirstLine(e.message)) else m.resting)
  {
    hide FoldStream, Put, FirstLine;
  }

  lemma FoldsNotice(m: Mode, s: Stream, e: Event, now: Clock)
    requires Get(m.streams, s.id) == Some(s) && (IsNotice(e) || e.TurnCommitted?)
    ensures FoldAt(m, s.id, e, now) ==
            m.(streams := Put(m.streams, s.id, FoldStream(s, e, now)),
               turns := if e.TurnCommitted? && !s.replaying then m.turns + 1 else m.turns,
               notices := if e.TurnCommitted? then (if s.replaying then m.notices else Aged(m.notices, m.turns + 1))
                          else if e.Noticed? then
                            Put(m.notices, NoticeKey(s.id, e.notice),
                                Notice(e.level, e.text, e.level == Severe, m.turns))
                          else Delete(m.notices, NoticeKey(s.id, e.notice)))
  {
    hide FoldStream, Put, Delete, Aged, NoticeKey;
  }

  lemma FoldsCard(m: Mode, s: Stream, e: Event, now: Clock)
    requires Get(m.streams, s.id) == Some(s) && (e.InteractionRequest? || e.InteractionSettled?)
    ensures FoldAt(m, s.id, e, now) ==
            m.(streams := Put(m.streams, s.id, FoldStream(s, e, now)),
               cards := if e.InteractionSettled? then Delete(m.cards, e.request)
                        else match ParseCard(e.request, e.uiType, e.payload)
                          case None => m.cards
                          case Some(card) => Put(m.cards, card.id, OpenCard(card, s.id)))
  {
  }

  lemma FoldsSpecially(m: Mode, s: Stream, e: Event, now: Clock)
    requires Get(m.streams, s.id) == Some(s) && (e.SkillsAvailable? || e.ModelSelected? || e.SessionClosed?)
    ensures var m1 := m.(streams := Put(m.streams, s.id, FoldStream(s, e, now)));
      FoldAt(m, s.id, e, now) ==
        if e.SessionClosed? then Sweep(m1)
        else if e.ModelSelected? || Some(s.id) == m.root then HeroShown(m1) else m1
  {
    hide FoldStream, Put, Sweep, HeroShown;
  }

  lemma FoldReplay(v: Stream, e: Event, now: Clock)
    requires e.ReplayBegin? || e.ReplayEnd?
    ensures FoldStream(v, e, now) == v.(replaying := e.ReplayBegin?, tree := Grown(v.tree, e))
    ensures e.ReplayEnd? ==> Grown(v.tree, e) == v.tree
  {
    NeverThrows(v, e);
    hide Throws, Grown;
    if e.ReplayEnd? {
      Treeless(v, e, now);
    }
  }

  /** The events that can throw announce an entry. */
  lemma NeverThrows(v: Stream, e: Event)
    ensures !(e.UserMessage? || e.TurnStarted? || e.ToolResult? || e.CompactionStep?) ==> !Throws(v, e)
  {
  }

  lemma FoldEnds(v: Stream, e: Event, now: Clock)
    requires IsRunEvent(e)
    ensures FoldStream(v, e, now) ==
      Ended(v, if e.RunFinished? then Completed else if e.RunAborted? then Aborted else Failed, now)
  {
    Treeless(v, e, now);
    hide FoldStream, Ended, Metered, Unqueued, Put, Delete, Shut, Started;
  }

  lemma FoldUntouched(v: Stream, e: Event, now: Clock)
    requires Untouched(e)
    ensures FoldStream(v, e, now) == v
  {
    hide FoldStream, FoldFacts;
    Treeless(v, e, now);
    FactsUntouched(v, e, now);
  }

  lemma FactsUntouched(v: Stream, e: Event, now: Clock)
    requires Untouched(e)
    ensures FoldFacts(v, e, now) == v
  {
    hide Metered, Unqueued, Put, Delete, Ended, Shut, Started;
  }

  lemma FoldField(v: Stream, e: Event, now: Clock)
    ensures e.MessageQueued? ==> FoldStream(v, e, now) == v.(pending := v.pending + [e.queued])
    ensures e.MessagesDiscarded? ==> FoldStream(v, e, now) == v.(pending := [])
    ensures e.ModelSelected? ==> FoldStream(v, e, now) == v.(selection := Some(e.selection))
    ensures e.SessionClosed? ==> FoldStream(v, e, now) == Shut(v, now)
    ensures e.SkillsAvailable? ==> FoldStream(v, e, now) == v.(skills := e.skills)
  {
    if TreeStep(e).None? {
      Treeless(v, e, now);
    }
    hide FoldStream, Ended, Metered, Unqueued, Put, Delete, Started;
  }

  lemma FoldCompacts(v: Stream, e: Event, now: Clock)
    ensures e.CompactionBegin? ==> FoldStream(v, e, now) == v.(compacting := true, compactionFrom := v.contextUsed)
    ensures e.CompactionFailed? ==> FoldStream(v, e, now) == v.(compacting := false, compactionFrom := None)
    ensures e.CompactionEnd? ==>
      FoldStream(v, e, now) == v.(compacting := false, contextUsed := Some(e.after), compactionFrom := None)
  {
    if TreeStep(e).None? {
      Treeless(v, e, now);
    }
    hide FoldStream, Ended, Shut, Metered, Unqueued, Put, Delete, Started;
  }

  predicate Untouched(e: Event) {
    e.TurnCommitted? || IsNotice(e) || e.InteractionRequest? || e.InteractionSettled? || e.NativeItem?
    || e.CompactionDelta? || e.CompactionRetried? || IsGlobal(e)
  }

  lemma FoldUser(v: Stream, entry: Id, text: string, now: Clock)
    ensures var e, step := UserMessage(entry, text), Trees.AddUser(entry, text);
      && (Throws(v, e) <==> Trees.Throws(v.tree, step))
      && FoldStream(v, e, now) ==
           (if v.replaying then v else Started(v)).(tree := Trees.Leaves(v.tree, step),
             pending := if Throws(v, e) then v.pending else Unqueued(v.pending, entry))
  {
    hide Trees.Leaves, Trees.Throws, Unqueued;
  }

  lemma FoldTurn(v: Stream, turn: Id, now: Clock)
    ensures var e, step := TurnStarted(turn), Trees.StartTurn(turn);
      && (Throws(v, e) <==> Trees.Throws(v.tree, step))
      && FoldStream(v, e, now) ==
           (if Throws(v, e) then v
            else (if v.replaying || v.running then v else Started(v)).(lastDelta := None)
           ).(tree := Trees.Leaves(v.tree, step))
  {
    hide Trees.Leaves, Trees.Throws;
  }

  lemma FoldDelta(v: Stream, e: Event, now: Clock)
    requires e.TextDelta? || e.ReasoningDelta?
    ensures FoldStream(v, e, now) ==
      v.(lastDelta := Some(if e.TextDelta? then Text else Reasoning), tree := Grown(v.tree, e))
    ensures e.ReasoningDelta? ==> Grown(v.tree, e) == v.tree
  {
    NeverThrows(v, e);
    hide Throws, Trees.Leaves;
  }

  lemma FoldCall(v: Stream, e: Event, now: Clock)
    requires e.ToolCalled?
    ensures FoldStream(v, e, now) ==
      v.(openCalls := Put(v.openCalls, e.call, e.made.name), tasks := v.tasks[e.call := e.task],
         tree := Grown(v.tree, e))
  {
    NeverThrows(v, e);
    hide Throws, Trees.Leaves, Put;
  }

  lemma FoldResult(v: Stream, entry: Id, call: Id, tool: string, now: Clock)
    ensures var e, step := ToolResult(entry, call, tool), Trees.ToolResult(entry, call, tool);
      && (Throws(v, e) <==> Trees.Throws(v.tree, step))
      && FoldStream(v, e, now) ==
           v.(tree := Trees.Leaves(v.tree, step),
              openCalls := if Throws(v, e) then v.openCalls else Delete(v.openCalls, call))
  {
    hide Trees.Leaves, Trees.Throws, Delete;
  }

  lemma FoldMetered(v: Stream, e: Event, now: Clock)
    requires e.CompletionCall? || e.CompactionStep?
    ensures e.CompactionStep? ==>
      var step := Trees.AddCompaction(e.entry, e.usage.total);
      (Throws(v, e) <==> Trees.Throws(v.tree, step)) && Grown(v.tree, e) == Trees.Leaves(v.tree, step)
    ensures e.CompletionCall? ==> !Throws(v, e) && Grown(v.tree, e) == v.tree
    ensures FoldStream(v, e, now) ==
      if Throws(v, e) then v.(tree := Grown(v.tree, e))
      else v.(spend := Metered(v.spend, e.usage, e.cost), contextUsed := Some(e.usage.total), tree := Grown(v.tree, e))
  {
    hide Trees.Leaves, Trees.Throws, Metered;
  }

  lemma FoldNoted(v: Stream, e: Event, now: Clock)
    requires e.TurnRetried? || e.TurnTruncated? || e.CheckedOut?
    ensures FoldStream(v, e, now) == v.(tree := Grown(v.tree, e)) && (e.TurnTruncated? ==> Grown(v.tree, e) == v.tree)
  {
    NeverThrows(v, e);
    hide Throws, Trees.Leaves;
  }

  /** The dock depends on the focused stream, the root, the channel and the check in flight alone. */
  lemma DockStays(m: Mode, n: Mode, footer: Option<Footer>, status: Status, pending: seq<Pending>, skills: seq<Skill>)
    requires FocusedStream(m) == FocusedStream(n) && m.root == n.root && m.channel == n.channel
      && m.checking == n.checking
    ensures DockMatches(m, footer, status, pending, skills) == DockMatches(n, footer, status, pending, skills)
  {
  }

  lemma WithoutStreamStep(done: Assoc<Id, OpenCard>, left: Assoc<Id, OpenCard>, stream: Id)
    ensures left == [] ==> done + WithoutStream(left, stream) == done
    ensures left != [] ==>
      done + WithoutStream(left, stream) ==
        (if left[0].1.stream == stream then done else done + [left[0]]) + WithoutStream(left[1..], stream)
  {
  }

  lemma AgedStep(done: Assoc<string, Notice>, left: Assoc<string, Notice>, turns: nat)
    ensures left == [] ==> done + Aged(left, turns) == done
    ensures left != [] ==>
      done + Aged(left, turns) ==
        (if !left[0].1.pinned && turns - left[0].1.born >= TRANSIENT_TURNS then done else done + [left[0]])
        + Aged(left[1..], turns)
  {
  }

  lemma {:induction false} FocusSurvives(ss: Assoc<Id, StreamState>, focused: Option<Id>, visible: set<Id>)
    requires Keyed(ss)
    ensures focused.Some? ==> Get(Swept(Values(ss), focused, visible), focused.value) == Get(Values(ss), focused.value)
  {
    if ss != [] {
      FocusSurvives(ss[1..], focused, visible);
      var head, rest := (ss[0].0, ss[0].1.Value()), Values(ss[1..]);
      var swept := Swept(rest, focused, visible);
      assert ([head] + rest)[1..] == rest && ([head] + swept)[1..] == swept;
      assert Swept(Values(ss), focused, visible) ==
        if Unreachable(head.1, focused, visible) then swept else [head] + swept;
    }
  }

  lemma NothingLeft(focused: Option<Id>, visible: set<Id>)
    ensures Values([]) == [] && Swept([], focused, visible) == []
  {
  }

  lemma DropObjects(ss: Assoc<Id, StreamState>, i: nat)
    requires i < |ss|
    ensures Objects(ss[..i] + ss[i + 1..]) <= Objects(ss)
  {
    var less := ss[..i] + ss[i + 1..];
    assert forall j :: 0 <= j < |less| ==> less[j] == ss[if j < i then j else j + 1];
  }

  lemma UnreachableIs(s: Stream, focused: Option<Id>, visible: set<Id>)
    ensures Unreachable(s, focused, visible) <==>
            s.closed && s.parent.Some? && Some(s.id) != focused && s.id !in visible
  {
  }

  lemma SweptHead(left: Assoc<Id, StreamState>, focused: Option<Id>, visible: set<Id>)
    requires left != []
    ensures var head, kept := (left[0].0, left[0].1.Value()), Swept(Values(left[1..]), focused, visible);
      Swept(Values(left), focused, visible) == if Unreachable(head.1, focused, visible) then kept else [head] + kept
  {
    var head, rest := (left[0].0, left[0].1.Value()), Values(left[1..]);
    assert ([head] + rest)[1..] == rest;
    assert Values(left) == [head] + rest;
  }

  /** What the sweep's loop does with the next stream. */
  lemma SweepStep(done: Assoc<Id, StreamState>, left: Assoc<Id, StreamState>, focused: Option<Id>, visible: set<Id>)
    requires left != []
    ensures var s := left[0].1.Value();
      Values(done) + Swept(Values(left), focused, visible) ==
        (if Unreachable(s, focused, visible) then Values(done) else Values(done + [left[0]]))
        + Swept(Values(left[1..]), focused, visible)
  {
    hide Unreachable, Swept, Values, StreamState.Value;
    SweptHead(left, focused, visible);
    ValuesAppend(done, left[0]);
  }
}
