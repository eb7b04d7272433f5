/** What a stream's facts say about its history: which messages wait, which tool calls are open, what was
    spent. Each is read off the record of the whole run, from the stream's last announce on. */
module StreamLives {
  import opened Wrappers
  import opened Sequences
  import opened Assoc
  import opened Streams
  import opened Modes
  import opened ModeRuns
  import Trees

  /** `x` is an event of stream `id`. */
  predicate On(x: Effect, id: Id) {
    x.Folds? && x.stream == id
  }

  predicate OpensIt(x: Effect, id: Id) {
    x.Opens? && x.announced.id == id
  }

  /** Every announce in the record starts a stream from nothing. */
  ghost predicate StartsFresh(x: Effect) {
    x.Opens? ==>
      var s := x.announced;
      && s.pending == [] && s.openCalls == [] && s.spend == NOTHING_SPENT && s.tree == Trees.Empty
      && !s.running && s.terminal == None && !s.replaying && !s.compacting && s.compactionFrom == None && !s.closed
      && s.selection == None && s.contextUsed == None && s.skills == [] && s.lastDelta == None && s.tasks == map[]
  }

  /** So it does, a stream's events come between its announce and its close, and every checkout names an
      entry of its stream's tree. */
  ghost predicate Orderly(t: seq<Effect>, id: Id) {
    forall i {:trigger OrderlyAt(t, i, id)} :: 0 <= i < |t| ==> OrderlyAt(t, i, id)
  }

  predicate Takes(s: Stream, e: Event) {
    !s.closed && ChecksOutKnown(s, e)
  }

  ghost predicate OrderlyAt(t: seq<Effect>, i: nat, id: Id)
    requires i < |t|
  {
    && StartsFresh(t[i])
    && (On(t[i], id) ==> Life(t[..i], id).Some? && Takes(Life(t[..i], id).value, t[i].event))
  }

  lemma OrderlyBefore(t: seq<Effect>, id: Id)
    requires t != [] && Orderly(t, id)
    ensures Orderly(t[..|t| - 1], id) && OrderlyAt(t, |t| - 1, id)
  {
    hide Life, StartsFresh;
    var before := t[..|t| - 1];
    forall i | 0 <= i < |before|
      ensures OrderlyAt(before, i, id)
    {
      assert OrderlyAt(t, i, id) && before[..i] == t[..i];
    }
  }

  lemma {:induction false} RunsAreOrderly(h: History, id: Id)
    requires LegalRun(h)
    ensures Orderly(Trace(h), id)
  {
    hide Run, Step, EffectOf, LegalStep, Life, StartsFresh;
    if h != [] {
      var n := |h| - 1;
      var before := h[..n];
      RunsAreOrderly(before, id);
      var x := EffectOf(Run(before), h[n].0, h[n].1);
      assert Trace(h) == Trace(before) + [x];
      StepIsOrderly(before, h[n].0, h[n].1, id);
      forall i | 0 <= i <= n
        ensures OrderlyAt(Trace(h), i, id)
      {
        assert Trace(h)[..i] == Trace(before)[..i];
        assert i == n ==> Trace(before)[..i] == Trace(before);
        assert i < n ==> OrderlyAt(Trace(before), i, id);
      }
    }
  }

  lemma StepIsOrderly(h: History, a: Action, now: Clock, id: Id)
    requires LegalRun(h) && LegalStep(Run(h), a)
    ensures var x := EffectOf(Run(h), a, now); var life := Life(Trace(h), id);
      StartsFresh(x) && (On(x, id) ==> life.Some? && Takes(life.value, x.event))
  {
    hide Run, Trace, LegalRun, Life, IsStartupFailure, TitleFor, Target, Left;
    if On(EffectOf(Run(h), a, now), id) {
      RegisteredIsLife(h, id);
    }
  }

  /** In an orderly life the tree is a good one all the way. */
  lemma {:induction false} TreeInLifeIsGood(t: seq<Effect>, id: Id)
    requires Orderly(t, id)
    ensures Life(t, id).Some? ==> Trees.Good(Life(t, id).value.tree)
  {
    hide Trees.Good, FoldStream, Orderly;
    if t != [] {
      OrderlyBefore(t, id);
      TreeInLifeIsGood(t[..|t| - 1], id);
      Trees.EmptyIsGood();
      TreeAfterIsGood(t[|t| - 1], Life(t[..|t| - 1], id), id);
    }
  }

  lemma TreeAfterIsGood(x: Effect, before: Option<Stream>, id: Id)
    requires StartsFresh(x) && (before.Some? ==> Trees.Good(before.value.tree))
    requires On(x, id) && before.Some? ==> ChecksOutKnown(before.value, x.event)
    ensures After(x, before, id).Some? ==> Trees.Good(After(x, before, id).value.tree)
  {
    hide Trees.Good, FoldFacts, Grown, Throws;
    Trees.EmptyIsGood();
    if On(x, id) && before.Some? {
      TreeStaysGood(before.value, x.event);
    }
  }

  /** A registered stream is its life. */
  lemma RegisteredIsLife(h: History, id: Id)
    requires LegalRun(h) && Has(Run(h).streams, id)
    ensures Get(Run(h).streams, id) == Life(Trace(h), id)
  {
    hide Run, Trace, LegalRun, Life;
    StreamsLiveAlone(h, id);
  }

  // ---- the session tree

  /** What the record means for the stream's tree, from its last announce on. */
  function TreeSteps(t: seq<Effect>, id: Id): seq<Trees.Step> {
    if t == [] || OpensIt(t[|t| - 1], id) then []
    else
      var x := t[|t| - 1];
      TreeSteps(t[..|t| - 1], id)
      + if On(x, id) && TreeStep(x.event).Some? then [TreeStep(x.event).value] else []
  }

  lemma {:induction false} TreeInLife(t: seq<Effect>, id: Id)
    requires Orderly(t, id)
    ensures Life(t, id).Some? ==> Follows(TreeSteps(t, id), Life(t, id).value.tree)
  {
    hide Follows, FoldStream, Orderly, StartsFresh, After;
    if t != [] {
      var before := t[..|t| - 1];
      OrderlyBefore(t, id);
      TreeInLife(before, id);
      if Life(t, id).Some? {
        TreeGoesOn(t[|t| - 1], Life(before, id), id, TreeSteps(before, id));
      }
    }
  }

  /** The steps check out known entries only, and lead from the empty tree to `tree`. */
  ghost predicate Follows(steps: seq<Trees.Step>, tree: Trees.Tree) {
    Trees.Good(Trees.Empty) && Trees.KnownCheckouts(Trees.Empty, steps) && Trees.Run(Trees.Empty, steps) == Ok(tree)
  }

  lemma NothingFollows()
    ensures Follows([], Trees.Empty)
  {
    Trees.EmptyIsGood();
  }

  lemma OneMoreFollows(steps: seq<Trees.Step>, tree: Trees.Tree, step: Trees.Step)
    requires Follows(steps, tree) && (step.MoveHead? ==> step.id in tree.nodes)
    ensures Follows(steps + [step], Trees.Leaves(tree, step))
  {
    hide Trees.Leaves, Trees.WellFormed, Trees.HeadKnown;
    Trees.RunExtends(Trees.Empty, steps, step);
  }

  lemma TreeGoesOn(x: Effect, before: Option<Stream>, id: Id, steps: seq<Trees.Step>)
    requires StartsFresh(x) && After(x, before, id).Some? && (before.Some? ==> Follows(steps, before.value.tree))
    requires On(x, id) && before.Some? ==> ChecksOutKnown(before.value, x.event)
    ensures Follows(if OpensIt(x, id) then []
                    else steps + if On(x, id) && TreeStep(x.event).Some? then [TreeStep(x.event).value] else [],
                    After(x, before, id).value.tree)
  {
    hide Follows, FoldFacts, Throws, Trees.Leaves;
    NothingFollows();
    if !OpensIt(x, id) {
      if On(x, id) && TreeStep(x.event).Some? {
        OneMoreFollows(steps, before.value.tree, TreeStep(x.event).value);
      } else {
        assert steps + [] == steps;
      }
    }
  }

  /** In every legal run every stream's session tree is a good one, what a run of the tree's own steps
      makes of its events since its announce; all that is proved of such runs is true of it. */
  lemma TreesStayGood(h: History, id: Id)
    requires LegalRun(h) && Has(Run(h).streams, id)
    ensures Trees.Good(Get(Run(h).streams, id).value.tree)
    ensures Follows(TreeSteps(Trace(h), id), Get(Run(h).streams, id).value.tree)
  {
    hide Run, Trace, LegalRun, Life, Orderly, Follows, Trees.Good, TreeSteps;
    RegisteredIsLife(h, id);
    RunsAreOrderly(h, id);
    TreeInLife(Trace(h), id);
    TreeInLifeIsGood(Trace(h), id);
  }

  // ---- the queue

  /** `x` takes the message off `id`'s queue: delivered, discarded, closed, or the stream started over. */
  predicate Unqueues(x: Effect, id: Id, p: Pending) {
    || OpensIt(x, id)
    || (On(x, id) && (Delivers(x.event, p) || x.event.MessagesDiscarded? || x.event.SessionClosed?))
  }

  predicate Delivers(e: Event, p: Pending) {
    e.UserMessage? && e.entry == p.id
  }

  predicate Queues(x: Effect, id: Id, p: Pending) {
    On(x, id) && x.event == MessageQueued(p)
  }

  ghost predicate QueuedSince(t: seq<Effect>, i: nat, id: Id, p: Pending) {
    i < |t| && Queues(t[i], id, p) && Life(t[..i], id).Some? && forall j :: i < j < |t| ==> !Unqueues(t[j], id, p)
  }

  lemma {:induction false} UnqueuedKeeps(pending: seq<Pending>, entry: Id, p: Pending)
    ensures p in Unqueued(pending, entry) <==> p in pending && p.id != entry
  {
    if pending != [] {
      UnqueuedKeeps(pending[1..], entry, p);
    }
  }

  lemma FactsQueue(s: Stream, e: Event, now: Clock)
    ensures FoldFacts(s, e, now).pending ==
            if e.UserMessage? then Unqueued(s.pending, e.entry)
            else if e.MessageQueued? then s.pending + [e.queued]
            else if e.MessagesDiscarded? || e.SessionClosed? then [] else s.pending
  {
    hide Metered, Unqueued, Put, Delete;
  }

  lemma QueueFold(s: Stream, e: Event, now: Clock, p: Pending)
    ensures p in FoldFacts(s, e, now).pending <==>
            || e == MessageQueued(p)
            || (p in s.pending && !Delivers(e, p) && !e.MessagesDiscarded? && !e.SessionClosed?)
  {
    FactsQueue(s, e, now);
    hide Unqueued, FoldFacts;
    if e.UserMessage? {
      UnqueuedKeeps(s.pending, e.entry, p);
    }
  }

  lemma QueueAfter(x: Effect, before: Option<Stream>, id: Id, p: Pending)
    requires StartsFresh(x) && After(x, before, id).Some? && (before.Some? ==> Trees.Good(before.value.tree))
    ensures p in After(x, before, id).value.pending <==>
            before.Some? && (Queues(x, id, p) || (p in before.value.pending && !Unqueues(x, id, p)))
  {
    hide FoldFacts, Grown, Throws, Trees.Good;
    if On(x, id) && before.Some? {
      TreeStaysGood(before.value, x.event);
      QueueFold(before.value, x.event, x.now, p);
    }
  }

  lemma {:induction false} PendingInLife(t: seq<Effect>, id: Id, p: Pending)
    requires Orderly(t, id)
    ensures Life(t, id).Some? ==>
      (p in Life(t, id).value.pending <==> exists i: nat :: QueuedSince(t, i, id, p))
    ensures Life(t, id).None? ==> !exists i: nat :: QueuedSince(t, i, id, p)
  {
    hide After, Queues, Unqueues, StartsFresh, Orderly, Trees.Good;
    if t != [] {
      var n := |t| - 1;
      var before, x := t[..n], t[n];
      OrderlyBefore(t, id);
      TreeInLifeIsGood(before, id);
      PendingInLife(before, id, p);
      QueuedStep(t, id, p);
      if Life(t, id).Some? {
        QueueAfter(x, Life(before, id), id, p);
        QueueOrNot(x, id, p);
      } else {
        GoneStays(x, Life(before, id), id);
      }
    }
  }

  lemma QueueOrNot(x: Effect, id: Id, p: Pending)
    ensures Queues(x, id, p) ==> !Unqueues(x, id, p)
  {
  }

  lemma GoneStays(x: Effect, before: Option<Stream>, id: Id)
    ensures After(x, before, id).None? ==> before.None?
  {
  }

  lemma QueuedStep(t: seq<Effect>, id: Id, p: Pending)
    requires t != []
    ensures var before, x := t[..|t| - 1], t[|t| - 1];
      (exists i: nat :: QueuedSince(t, i, id, p)) <==>
        || (Queues(x, id, p) && Life(before, id).Some?)
        || ((exists i: nat :: QueuedSince(before, i, id, p)) && !Unqueues(x, id, p))
  {
    hide Life, Queues, Unqueues;
    var n := |t| - 1;
    var before := t[..n];
    if Queues(t[n], id, p) && Life(before, id).Some? {
      assert QueuedSince(t, n, id, p);
    }
    if i: nat :| QueuedSince(before, i, id, p) {
      assert before[..i] == t[..i];
      if !Unqueues(t[n], id, p) {
        assert QueuedSince(t, i, id, p);
      }
    }
    if i: nat :| QueuedSince(t, i, id, p) {
      if i < n {
        assert before[..i] == t[..i];
        assert QueuedSince(before, i, id, p);
      }
    }
  }

  /** A message waits in a stream's queue exactly when it was queued there and, since, neither delivered
      nor discarded, and the stream was neither closed nor started over. A failed run keeps it. */
  lemma MessageWaitsIff(h: History, id: Id, p: Pending)
    requires LegalRun(h) && Has(Run(h).streams, id)
    ensures p in Get(Run(h).streams, id).value.pending <==> exists i: nat :: QueuedSince(Trace(h), i, id, p)
  {
    hide Run, Trace, LegalRun, Life, QueuedSince, Orderly;
    RegisteredIsLife(h, id);
    RunsAreOrderly(h, id);
    PendingInLife(Trace(h), id, p);
  }

  /** Step `i` queued a message that waits since. */
  ghost predicate WaitsStill(t: seq<Effect>, i: nat, id: Id) {
    && i < |t| && On(t[i], id) && t[i].event.MessageQueued?
    && forall j :: i < j < |t| ==> !Unqueues(t[j], id, t[i].event.queued)
  }

  /** The messages queued in the first `n` steps that wait still, in the order of their queueing. */
  ghost function StillWaiting(t: seq<Effect>, id: Id, n: nat): seq<Pending>
    requires n <= |t|
  {
    if n == 0 then []
    else StillWaiting(t, id, n - 1) + if WaitsStill(t, n - 1, id) then [t[n - 1].event.queued] else []
  }

  lemma {:induction false} UnqueuedSplits(a: seq<Pending>, b: seq<Pending>, entry: Id)
    ensures Unqueued(a + b, entry) == Unqueued(a, entry) + Unqueued(b, entry)
  {
    if a == [] {
      assert a + b == b;
    } else {
      var head := if a[0].id == entry then [] else [a[0]];
      UnqueuedSplits(a[1..], b, entry);
      assert (a + b)[0] == a[0] && (a + b)[1..] == a[1..] + b;
      assert Unqueued(a + b, entry) == head + Unqueued(a[1..] + b, entry);
      assert Unqueued(a, entry) == head + Unqueued(a[1..], entry);
      hide Unqueued;
      Regroup(head, Unqueued(a[1..], entry), Unqueued(b, entry));
    }
  }

  lemma WaitsStep(t: seq<Effect>, i: nat, id: Id)
    requires t != [] && i < |t| - 1
    ensures var before, x := t[..|t| - 1], t[|t| - 1];
      WaitsStill(t, i, id) <==> WaitsStill(before, i, id) && !Unqueues(x, id, before[i].event.queued)
  {
    hide Unqueues, On;
  }

  /** What a step leaves in a queue. */
  function QueueLeft(x: Effect, id: Id, before: seq<Pending>): seq<Pending> {
    if OpensIt(x, id) then []
    else if !On(x, id) then before
    else if x.event.UserMessage? then Unqueued(before, x.event.entry)
    else if x.event.MessagesDiscarded? || x.event.SessionClosed? then []
    else before
  }

  lemma LeftSplits(x: Effect, id: Id, a: seq<Pending>, b: seq<Pending>)
    ensures QueueLeft(x, id, a + b) == QueueLeft(x, id, a) + QueueLeft(x, id, b)
    ensures QueueLeft(x, id, []) == []
    ensures |b| == 1 ==> QueueLeft(x, id, b) == if Unqueues(x, id, b[0]) then [] else b
  {
    if On(x, id) && x.event.UserMessage? {
      UnqueuedSplits(a, b, x.event.entry);
    }
  }

  lemma {:induction false} WaitingStep(t: seq<Effect>, id: Id, n: nat)
    requires t != [] && n < |t|
    ensures StillWaiting(t, id, n) == QueueLeft(t[|t| - 1], id, StillWaiting(t[..|t| - 1], id, n))
  {
    hide QueueLeft;
    var before, x := t[..|t| - 1], t[|t| - 1];
    if n == 0 {
      LeftSplits(x, id, [], []);
    } else {
      WaitingStep(t, id, n - 1);
      WaitsStep(t, n - 1, id);
      var rest := StillWaiting(before, id, n - 1);
      LeftSplits(x, id, rest, if WaitsStill(before, n - 1, id) then [before[n - 1].event.queued] else []);
    }
  }

  lemma QueueAfterStep(x: Effect, before: Option<Stream>, id: Id)
    requires StartsFresh(x) && (before.Some? ==> Trees.Good(before.value.tree)) && (On(x, id) ==> before.Some?)
    requires After(x, before, id).Some?
    ensures After(x, before, id).value.pending ==
            QueueLeft(x, id, if before.Some? then before.value.pending else [])
            + if On(x, id) && x.event.MessageQueued? then [x.event.queued] else []
  {
    hide FoldFacts, Grown, Throws, Trees.Good, Unqueued;
    if On(x, id) {
      TreeStaysGood(before.value, x.event);
      FactsQueue(before.value, x.event, x.now);
    }
  }

  lemma LastWaiting(t: seq<Effect>, id: Id)
    requires t != []
    ensures var before, x := t[..|t| - 1], t[|t| - 1];
      StillWaiting(t, id, |t|) ==
        QueueLeft(x, id, StillWaiting(before, id, |before|))
        + if On(x, id) && x.event.MessageQueued? then [x.event.queued] else []
  {
    WaitingStep(t, id, |t| - 1);
    hide QueueLeft;
  }

  lemma LifeStep(t: seq<Effect>, id: Id)
    requires t != []
    ensures Life(t, id) == After(t[|t| - 1], Life(t[..|t| - 1], id), id)
  {
    hide After;
  }

  lemma {:induction false} OrderInLife(t: seq<Effect>, id: Id)
    requires Orderly(t, id)
    ensures StillWaiting(t, id, |t|) == if Life(t, id).Some? then Life(t, id).value.pending else []
  {
    if t != [] {
      hide After, Life, StartsFresh, Orderly, Takes, Trees.Good, QueueLeft, StillWaiting;
      var before, x := t[..|t| - 1], t[|t| - 1];
      OrderlyBefore(t, id);
      TreeInLifeIsGood(before, id);
      OrderInLife(before, id);
      LastWaiting(t, id);
      LifeStep(t, id);
      if Life(t, id).Some? {
        QueueAfterStep(x, Life(before, id), id);
      } else {
        GoneStays(x, Life(before, id), id);
        LeftSplits(x, id, [], []);
      }
    }
  }

  /** The queue lists its messages in the order in which they were queued. */
  lemma QueueIsInOrder(h: History, id: Id)
    requires LegalRun(h) && Has(Run(h).streams, id)
    ensures Get(Run(h).streams, id).value.pending == StillWaiting(Trace(h), id, |h|)
  {
    hide Run, Trace, LegalRun, Life, Orderly;
    RegisteredIsLife(h, id);
    RunsAreOrderly(h, id);
    OrderInLife(Trace(h), id);
  }

  // ---- open tool calls

  predicate Calls(x: Effect, id: Id, call: Id, tool: string) {
    On(x, id) && x.event.ToolCalled? && x.event.call == call && x.event.made.name == tool
  }

  /** `x` ends the call's wait: its result, another call of the same id, or the stream started over. */
  predicate EndsCall(x: Effect, id: Id, call: Id) {
    || OpensIt(x, id)
    || (On(x, id) && Ends(x.event, call))
  }

  predicate Ends(e: Event, call: Id) {
    (e.ToolCalled? || e.ToolResult?) && e.call == call
  }

  ghost predicate CalledSince(t: seq<Effect>, i: nat, id: Id, call: Id, tool: string) {
    i < |t| && Calls(t[i], id, call, tool) && Life(t[..i], id).Some?
    && forall j :: i < j < |t| ==> !EndsCall(t[j], id, call)
  }

  lemma CallFold(s: Stream, e: Event, now: Clock, call: Id, tool: string)
    ensures Get(FoldFacts(s, e, now).openCalls, call) == Some(tool) <==>
            || (e.ToolCalled? && e.call == call && e.made.name == tool)
            || (Get(s.openCalls, call) == Some(tool) && !Ends(e, call))
  {
    hide Metered, Unqueued, Put, Delete, Get;
    if e.ToolCalled? {
      GetPut(s.openCalls, e.call, e.made.name, call);
    } else if e.ToolResult? {
      GetDelete(s.openCalls, e.call, call);
    }
  }

  lemma CallAfter(x: Effect, before: Option<Stream>, id: Id, call: Id, tool: string)
    requires StartsFresh(x) && After(x, before, id).Some? && (before.Some? ==> Trees.Good(before.value.tree))
    ensures Get(After(x, before, id).value.openCalls, call) == Some(tool) <==>
            before.Some? && (Calls(x, id, call, tool)
                             || (Get(before.value.openCalls, call) == Some(tool) && !EndsCall(x, id, call)))
  {
    hide FoldFacts, Grown, Throws, Trees.Good;
    if On(x, id) && before.Some? {
      TreeStaysGood(before.value, x.event);
      CallFold(before.value, x.event, x.now, call, tool);
    }
  }

  lemma {:induction false} CallInLife(t: seq<Effect>, id: Id, call: Id, tool: string)
    requires Orderly(t, id)
    ensures Life(t, id).Some? ==>
      (Get(Life(t, id).value.openCalls, call) == Some(tool) <==> exists i: nat :: CalledSince(t, i, id, call, tool))
    ensures Life(t, id).None? ==> !exists i: nat :: CalledSince(t, i, id, call, tool)
  {
    hide After, Calls, EndsCall, StartsFresh, Get, Orderly, Trees.Good;
    if t != [] {
      var n := |t| - 1;
      var before, x := t[..n], t[n];
      OrderlyBefore(t, id);
      TreeInLifeIsGood(before, id);
      CallInLife(before, id, call, tool);
      CalledStep(t, id, call, tool);
      if Life(t, id).Some? {
        CallAfter(x, Life(before, id), id, call, tool);
      } else {
        GoneStays(x, Life(before, id), id);
      }
    }
  }

  lemma CalledStep(t: seq<Effect>, id: Id, call: Id, tool: string)
    requires t != []
    ensures var before, x := t[..|t| - 1], t[|t| - 1];
      (exists i: nat :: CalledSince(t, i, id, call, tool)) <==>
        || (Calls(x, id, call, tool) && Life(before, id).Some?)
        || ((exists i: nat :: CalledSince(before, i, id, call, tool)) && !EndsCall(x, id, call))
  {
    hide Life, Calls, EndsCall;
    var n := |t| - 1;
    var before := t[..n];
    if Calls(t[n], id, call, tool) && Life(before, id).Some? {
      assert CalledSince(t, n, id, call, tool);
    }
    if i: nat :| CalledSince(before, i, id, call, tool) {
      assert before[..i] == t[..i];
      if !EndsCall(t[n], id, call) {
        assert CalledSince(t, i, id, call, tool);
      }
    }
    if i: nat :| CalledSince(t, i, id, call, tool) {
      if i < n {
        assert before[..i] == t[..i];
        assert CalledSince(before, i, id, call, tool);
      }
    }
  }

  /** A tool call counts as open exactly when it was announced and has seen no result since. */
  lemma CallIsOpenIff(h: History, id: Id, call: Id, tool: string)
    requires LegalRun(h) && Has(Run(h).streams, id)
    ensures Get(Get(Run(h).streams, id).value.openCalls, call) == Some(tool) <==>
            exists i: nat :: CalledSince(Trace(h), i, id, call, tool)
  {
    hide Run, Trace, LegalRun, Life, CalledSince, Orderly;
    RegisteredIsLife(h, id);
    RunsAreOrderly(h, id);
    CallInLife(Trace(h), id, call, tool);
  }

  // ---- spending

  /** The usage a step reports for stream `id`, a completion's and a compaction step's alike. */
  function Reported(x: Effect, id: Id): Option<(Usage, Option<real>)> {
    if On(x, id) && (x.event.CompletionCall? || x.event.CompactionStep?) then Some((x.event.usage, x.event.cost))
      else None
  }

  /** The reports since the stream's last announce. */
  function Reports(t: seq<Effect>, id: Id): seq<(Usage, Option<real>)> {
    if t == [] || OpensIt(t[|t| - 1], id) then []
    else
      var r := Reported(t[|t| - 1], id);
      Reports(t[..|t| - 1], id) + if r.Some? then [r.value] else []
  }

  function InputOf(rs: seq<(Usage, Option<real>)>): nat {
    if rs == [] then 0 else InputOf(rs[..|rs| - 1]) + rs[|rs| - 1].0.input
  }

  function OutputOf(rs: seq<(Usage, Option<real>)>): nat {
    if rs == [] then 0 else OutputOf(rs[..|rs| - 1]) + rs[|rs| - 1].0.output
  }

  function CachedOf(rs: seq<(Usage, Option<real>)>): nat {
    if rs == [] then 0 else CachedOf(rs[..|rs| - 1]) + rs[|rs| - 1].0.cached
  }

  function CreatedOf(rs: seq<(Usage, Option<real>)>): nat {
    if rs == [] then 0 else CreatedOf(rs[..|rs| - 1]) + rs[|rs| - 1].0.created
  }

  /** The cache hit rate of the last report; unstated with no report, or where its prompt was empty. */
  ghost predicate LastRate(rate: Option<real>, rs: seq<(Usage, Option<real>)>) {
    if rs == [] then rate == None
    else
      var u := rs[|rs| - 1].0;
      var prompt := u.input + u.cached + u.created;
      (rate.Some? <==> prompt > 0) && (rate.Some? ==> rate.value * prompt as real == 100.0 * u.cached as real)
  }

  function CostOf(rs: seq<(Usage, Option<real>)>): real {
    if rs == [] then 0.0
    else CostOf(rs[..|rs| - 1]) + if rs[|rs| - 1].1.Some? then rs[|rs| - 1].1.value else 0.0
  }

  /** The sums are those of the reports; a price is stated exactly when some report stated one, and is
      then the sum of those stated. */
  ghost predicate Sums(s: Spend, rs: seq<(Usage, Option<real>)>) {
    && s.input == InputOf(rs) && s.output == OutputOf(rs) && s.cached == CachedOf(rs) && s.created == CreatedOf(rs)
    && LastRate(s.hitRate, rs)
    && (s.cost.Some? <==> exists i :: 0 <= i < |rs| && rs[i].1.Some?)
    && (s.cost.Some? ==> s.cost.value == CostOf(rs))
    && (s.cost.None? ==> CostOf(rs) == 0.0)
  }

  lemma RateGrows(s: Spend, rs: seq<(Usage, Option<real>)>, r: (Usage, Option<real>))
    ensures LastRate(Metered(s, r.0, r.1).hitRate, rs + [r])
  {
    assert (rs + [r])[|rs|] == r;
  }

  lemma SumsGrow(s: Spend, rs: seq<(Usage, Option<real>)>, r: (Usage, Option<real>))
    requires Sums(s, rs)
    ensures Sums(Metered(s, r.0, r.1), rs + [r])
  {
    hide LastRate;
    RateGrows(s, rs, r);
    hide Percent;
    var more := rs + [r];
    assert more[..|rs|] == rs && more[|rs|] == r;
    if i :| 0 <= i < |rs| && rs[i].1.Some? {
      assert more[i].1.Some?;
    }
  }

  lemma {:induction false} SpendInLife(t: seq<Effect>, id: Id)
    requires Orderly(t, id)
    ensures Life(t, id).Some? ==> Sums(Life(t, id).value.spend, Reports(t, id))
  {
    hide Sums, After, OpensIt, StartsFresh, Orderly, Trees.Good;
    if t != [] {
      var n := |t| - 1;
      var before, x := t[..n], t[n];
      OrderlyBefore(t, id);
      TreeInLifeIsGood(before, id);
      SpendInLife(before, id);
      if Life(t, id).Some? {
        SpendStep(x, Life(before, id), id, Reports(before, id));
      }
    }
  }

  lemma SpendFold(s: Stream, e: Event, now: Clock)
    ensures FoldFacts(s, e, now).spend ==
            if e.CompletionCall? || e.CompactionStep? then Metered(s.spend, e.usage, e.cost) else s.spend
  {
    hide Metered, Unqueued, Put, Delete;
  }

  lemma SpendStep(x: Effect, before: Option<Stream>, id: Id, rs: seq<(Usage, Option<real>)>)
    requires StartsFresh(x) && After(x, before, id).Some? && (before.Some? ==> Sums(before.value.spend, rs))
    requires before.Some? ==> Trees.Good(before.value.tree)
    ensures Sums(After(x, before, id).value.spend,
                 if OpensIt(x, id) then []
                 else rs + if Reported(x, id).Some? then [Reported(x, id).value] else [])
  {
    hide Sums, Metered, FoldFacts, Grown, Throws, Trees.Good;
    if On(x, id) && before.Some? {
      TreeStaysGood(before.value, x.event);
      SpendFold(before.value, x.event, x.now);
    }
    if OpensIt(x, id) {
      NothingSums();
    } else if Reported(x, id).Some? {
      SumsGrow(before.value.spend, rs, Reported(x, id).value);
    } else {
      assert rs + [] == rs;
    }
  }

  lemma NothingSums()
    ensures Sums(NOTHING_SPENT, [])
  {
  }

  /** A stream's usage is the sum of every report since its announce, aborted and failed runs and
      compactions included; its price is absent until a report states one. */
  lemma UsageIsTheSum(h: History, id: Id)
    requires LegalRun(h) && Has(Run(h).streams, id)
    ensures Sums(Get(Run(h).streams, id).value.spend, Reports(Trace(h), id))
  {
    hide Run, Trace, LegalRun, Life, Sums, Reports, Orderly;
    RegisteredIsLife(h, id);
    RunsAreOrderly(h, id);
    SpendInLife(Trace(h), id);
  }
}
