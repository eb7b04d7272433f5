/** What a stream says about itself, read off the record of the whole run: whether it runs, how its last
    run ended, and the other facts, each as the last step that states it left it. */
module StreamFacts {
  import opened Wrappers
  import opened Assoc
  import opened Streams
  import opened Modes
  import opened ModeRuns
  import opened StreamLives
  import Trees

  /** An event of a stream as its facts fold it. */
  lemma AfterFolds(x: Effect, before: Option<Stream>, id: Id)
    requires StartsFresh(x) && (before.Some? ==> Trees.Good(before.value.tree)) && (On(x, id) ==> before.Some?)
    ensures OpensIt(x, id) ==> After(x, before, id) == Some(x.announced)
    ensures On(x, id) ==> exists tree ::
      After(x, before, id) == Some(FoldFacts(before.value, x.event, x.now).(tree := tree))
    ensures !OpensIt(x, id) && !On(x, id) ==> After(x, before, id) == before
  {
    hide Trees.Good, FoldFacts, Grown, Throws, StartsFresh;
    if On(x, id) {
      TreeStaysGood(before.value, x.event);
    }
  }

  /** The life before the last step of an orderly record. */
  lemma LifeBefore(t: seq<Effect>, id: Id)
    requires t != [] && Orderly(t, id)
    ensures var before, x := Life(t[..|t| - 1], id), t[|t| - 1];
      && Orderly(t[..|t| - 1], id) && StartsFresh(x) && (before.Some? ==> Trees.Good(before.value.tree))
      && (On(x, id) ==> before.Some?) && Life(t, id) == After(x, before, id)
  {
    hide Orderly, After, StartsFresh, Trees.Good;
    OrderlyBefore(t, id);
    TreeInLifeIsGood(t[..|t| - 1], id);
  }

  // ---- replay passes

  predicate OpensReplay(x: Effect, id: Id) {
    On(x, id) && x.event.ReplayBegin?
  }

  predicate ClosesReplay(x: Effect, id: Id) {
    OpensIt(x, id) || (On(x, id) && x.event.ReplayEnd?)
  }

  ghost predicate ReplaysSince(t: seq<Effect>, i: nat, id: Id) {
    i < |t| && OpensReplay(t[i], id) && forall j :: i < j < |t| ==> !ClosesReplay(t[j], id)
  }

  /** A replay pass is open at the end of the record. */
  ghost predicate Replays(t: seq<Effect>, id: Id) {
    exists i: nat :: ReplaysSince(t, i, id)
  }

  lemma ReplaysStep(t: seq<Effect>, id: Id)
    requires t != []
    ensures var before, x := t[..|t| - 1], t[|t| - 1];
      Replays(t, id) <==> OpensReplay(x, id) || (Replays(before, id) && !ClosesReplay(x, id))
  {
    hide OpensReplay, ClosesReplay;
    var n := |t| - 1;
    var before := t[..n];
    if OpensReplay(t[n], id) {
      assert ReplaysSince(t, n, id);
    }
    if i: nat :| ReplaysSince(before, i, id) {
      if !ClosesReplay(t[n], id) {
        assert ReplaysSince(t, i, id);
      }
    }
    if i: nat :| ReplaysSince(t, i, id) {
      if i < n {
        assert ReplaysSince(before, i, id);
      }
    }
  }

  lemma ReplayFold(s: Stream, e: Event, now: Clock)
    ensures FoldFacts(s, e, now).replaying == (e.ReplayBegin? || (s.replaying && !e.ReplayEnd?))
  {
    FactsFold(s, e, now, s.tree);
    hide FoldFacts;
  }

  lemma {:induction false} ReplayInLife(t: seq<Effect>, id: Id)
    requires Orderly(t, id)
    ensures if Life(t, id).Some? then Life(t, id).value.replaying == Replays(t, id) else !Replays(t, id)
  {
    hide After, Orderly, Trees.Good, FoldFacts, Replays, StartsFresh;
    if t == [] {
      NothingYet(id);
    } else {
      var before, x := t[..|t| - 1], t[|t| - 1];
      LifeBefore(t, id);
      ReplayInLife(before, id);
      ReplaysStep(t, id);
      AfterFolds(x, Life(before, id), id);
      AnnounceIsFresh(x);
      if On(x, id) {
        ReplayFold(Life(before, id).value, x.event, x.now);
      }
    }
  }

  /** A stream is in a replay pass exactly when one began and neither ended nor the stream started over. */
  lemma ReplayingIff(h: History, id: Id)
    requires LegalRun(h) && Has(Run(h).streams, id)
    ensures Get(Run(h).streams, id).value.replaying <==> exists i: nat :: ReplaysSince(Trace(h), i, id)
  {
    hide Run, Trace, LegalRun, Life, ReplaysSince, Orderly;
    RegisteredIsLife(h, id);
    RunsAreOrderly(h, id);
    ReplayInLife(Trace(h), id);
  }

  lemma NothingYet(id: Id)
    ensures !Replays([], id) && !Runs([], id) && !Rests([], id)
  {
  }

  /** A stream that never was announced has no step in the record. */
  lemma {:induction false} NoLifeNoSteps(t: seq<Effect>, id: Id)
    requires Orderly(t, id) && Life(t, id).None?
    ensures forall i :: 0 <= i < |t| ==> !OpensIt(t[i], id) && !On(t[i], id)
  {
    hide After, Orderly, StartsFresh, OpensIt, On, Trees.Good;
    if t != [] {
      LifeBefore(t, id);
      AfterSome(t[|t| - 1], Life(t[..|t| - 1], id), id);
      NoLifeNoSteps(t[..|t| - 1], id);
    }
  }

  lemma AfterSome(x: Effect, before: Option<Stream>, id: Id)
    ensures OpensIt(x, id) || before.Some? ==> After(x, before, id).Some?
  {
    hide FoldStream;
  }

  /** A closed stream neither runs nor compacts. */
  lemma {:induction false} LifeIsQuiet(t: seq<Effect>, id: Id)
    requires Orderly(t, id)
    ensures Life(t, id).Some? ==> Quiet(Life(t, id).value)
  {
    hide After, Orderly, StartsFresh, FoldFacts, Trees.Good, Quiet, ChecksOutKnown;
    if t != [] {
      var before, x := t[..|t| - 1], t[|t| - 1];
      LifeBefore(t, id);
      OrderlyBefore(t, id);
      LifeIsQuiet(before, id);
      AfterFolds(x, Life(before, id), id);
      AnnounceIsFresh(x);
      if On(x, id) {
        var s := Life(before, id).value;
        FactsKept(s, x.event, x.now);
        var tree :| Life(t, id) == Some(FoldFacts(s, x.event, x.now).(tree := tree));
        QuietTree(FoldFacts(s, x.event, x.now), tree);
      }
    }
  }

  lemma QuietTree(s: Stream, tree: Trees.Tree)
    ensures Quiet(s.(tree := tree)) == Quiet(s)
  {
  }

  lemma AnnounceIsFresh(x: Effect)
    requires StartsFresh(x)
    ensures x.Opens? ==> !x.announced.replaying && !x.announced.running && x.announced.terminal == None
    ensures x.Opens? ==> !x.announced.compacting && Quiet(x.announced)
  {
  }

  // ---- runs

  /** The step begins a run of `id`, or goes on with it: a message delivered or a turn started, live. */
  ghost predicate Begins(t: seq<Effect>, i: nat, id: Id) {
    i < |t| && On(t[i], id) && (t[i].event.UserMessage? || t[i].event.TurnStarted?) && !Replays(t[..i], id)
  }

  /** The event ends a run, and how. */
  predicate EndsAs(e: Event, how: Terminal) {
    match how
    case Completed => e.RunFinished?
    case Aborted => e.RunAborted?
    case Failed => e.RunFailed?
    case Closed => e.SessionClosed?
  }

  predicate Stops(x: Effect, id: Id) {
    OpensIt(x, id) || (On(x, id) && exists how :: EndsAs(x.event, how))
  }

  ghost predicate RunsSince(t: seq<Effect>, i: nat, id: Id) {
    Begins(t, i, id) && forall j :: i < j < |t| ==> !Stops(t[j], id)
  }

  /** A run is under way at the end of the record. */
  ghost predicate Runs(t: seq<Effect>, id: Id) {
    exists i: nat :: RunsSince(t, i, id)
  }

  /** Step `i` ended the last run, and no run began and the stream did not start over since. */
  ghost predicate RestsSince(t: seq<Effect>, i: nat, id: Id, how: Terminal) {
    && i < |t| && On(t[i], id) && EndsAs(t[i].event, how)
    && forall j: nat :: i < j < |t| ==> !Stops(t[j], id) && !Begins(t, j, id)
  }

  ghost predicate Rests(t: seq<Effect>, id: Id) {
    exists i: nat, how :: RestsSince(t, i, id, how)
  }

  lemma RunsStep(t: seq<Effect>, id: Id)
    requires t != []
    ensures var n := |t| - 1;
      Runs(t, id) <==> Begins(t, n, id) || (Runs(t[..n], id) && !Stops(t[n], id))
  {
    hide On, Replays, Stops;
    var n := |t| - 1;
    var before := t[..n];
    if Begins(t, n, id) {
      assert RunsSince(t, n, id);
    }
    if i: nat :| RunsSince(before, i, id) {
      assert before[..i] == t[..i];
      if !Stops(t[n], id) {
        assert RunsSince(t, i, id);
      }
    }
    if i: nat :| RunsSince(t, i, id) {
      if i < n {
        assert before[..i] == t[..i];
        assert RunsSince(before, i, id);
      }
    }
  }

  lemma RestsStep(t: seq<Effect>, id: Id, i: nat, how: Terminal)
    requires t != []
    ensures var n := |t| - 1;
      RestsSince(t, i, id, how) <==>
        if i == n then On(t[n], id) && EndsAs(t[n].event, how)
        else RestsSince(t[..n], i, id, how) && !Stops(t[n], id) && !Begins(t, n, id)
  {
    hide On, Replays, Stops, EndsAs;
    var n := |t| - 1;
    var before := t[..n];
    forall j: nat | j < n
      ensures Begins(t, j, id) == Begins(before, j, id)
    {
      assert before[..j] == t[..j];
    }
  }

  predicate Touches(e: Event) {
    e.UserMessage? || e.TurnStarted? || e.RunFinished? || e.RunAborted? || e.RunFailed? || e.SessionClosed?
  }

  lemma RunTouched(s: Stream, e: Event, now: Clock)
    requires Touches(e)
    ensures var r := FoldFacts(s, e, now);
      if e.UserMessage? || e.TurnStarted? then
        if s.replaying then r.running == s.running && r.terminal == s.terminal && r.terminalAt == s.terminalAt
        else r.running && (e.UserMessage? || !s.running ==> r.terminal == None)
             && (e.TurnStarted? && s.running ==> r.terminal == s.terminal)
      else
        && !r.running && r.terminalAt == now && r.terminal.Some?
        && forall how :: EndsAs(e, how) <==> r.terminal == Some(how)
  {
    hide Metered, Unqueued, Put, Delete;
  }

  lemma RunUntouched(s: Stream, e: Event, now: Clock)
    requires !Touches(e)
    ensures var r := FoldFacts(s, e, now);
      r.running == s.running && r.terminal == s.terminal && r.terminalAt == s.terminalAt
  {
    FactsFold(s, e, now, s.tree);
    hide FoldFacts;
  }

  lemma EndsTouch(e: Event)
    ensures !Touches(e) || e.UserMessage? || e.TurnStarted? ==> !exists how :: EndsAs(e, how)
    ensures e.RunFinished? ==> EndsAs(e, Completed)
    ensures e.RunAborted? ==> EndsAs(e, Aborted)
    ensures e.RunFailed? ==> EndsAs(e, Failed)
    ensures e.SessionClosed? ==> EndsAs(e, Closed)
  {
  }

  lemma RunFold(s: Stream, e: Event, now: Clock)
    requires s.running ==> s.terminal == None
    ensures var r := FoldFacts(s, e, now); var begins := (e.UserMessage? || e.TurnStarted?) && !s.replaying;
      && (r.running <==> begins || (s.running && !(exists how :: EndsAs(e, how))))
      && (r.running ==> r.terminal == None)
      && (begins ==> r.terminal == None)
      && (forall how :: EndsAs(e, how) ==> r.terminal == Some(how) && r.terminalAt == now)
      && (!begins && !(exists how :: EndsAs(e, how)) ==> r.terminal == s.terminal && r.terminalAt == s.terminalAt)
  {
    EndsTouch(e);
    if Touches(e) {
      RunTouched(s, e, now);
    } else {
      RunUntouched(s, e, now);
    }
    hide FoldFacts, EndsAs;
  }

  /** The stream runs as the record says, and at rest it shows its last end. */
  ghost predicate RunsAsTold(s: Stream, t: seq<Effect>, id: Id) {
    && (s.running <==> Runs(t, id))
    && (s.running ==> s.terminal == None)
    && (s.terminal.Some? <==> Rests(t, id))
    && (forall i: nat, how :: RestsSince(t, i, id, how) ==> s.terminal == Some(how) && s.terminalAt == t[i].now)
  }

  lemma RunsGoOn(t: seq<Effect>, id: Id, s: Stream, r: Stream, now: Clock)
    requires t != [] && On(t[|t| - 1], id) && now == t[|t| - 1].now
    requires var before, x := t[..|t| - 1], t[|t| - 1];
      RunsAsTold(s, before, id) && s.replaying == Replays(before, id)
    requires var e := t[|t| - 1].event; var begins := (e.UserMessage? || e.TurnStarted?) && !s.replaying;
      && (r.running <==> begins || (s.running && !(exists how :: EndsAs(e, how))))
      && (r.running ==> r.terminal == None)
      && (begins ==> r.terminal == None)
      && (forall how :: EndsAs(e, how) ==> r.terminal == Some(how) && r.terminalAt == now)
      && (!begins && !(exists how :: EndsAs(e, how)) ==> r.terminal == s.terminal && r.terminalAt == s.terminalAt)
    ensures RunsAsTold(r, t, id)
  {
    var n := |t| - 1;
    RunsStep(t, id);
    forall i: nat, how: Terminal
      ensures RestsSince(t, i, id, how) <==>
        if i == n then EndsAs(t[n].event, how)
        else RestsSince(t[..n], i, id, how) && !Stops(t[n], id) && !Begins(t, n, id)
    {
      RestsStep(t, id, i, how);
    }
    hide Replays, Runs, RestsSince, EndsAs;
    assert Stops(t[n], id) <==> exists how :: EndsAs(t[n].event, how);
    if how :| EndsAs(t[n].event, how) {
      assert RestsSince(t, n, id, how);
    } else if r.terminal.Some? {
      var i: nat, how :| RestsSince(t[..n], i, id, how);
      assert RestsSince(t, i, id, how);
    }
  }

  lemma OtherStep(t: seq<Effect>, id: Id)
    requires t != [] && !On(t[|t| - 1], id)
    ensures var before, x := t[..|t| - 1], t[|t| - 1];
      && (Runs(t, id) <==> Runs(before, id) && !OpensIt(x, id))
      && (Rests(t, id) <==> Rests(before, id) && !OpensIt(x, id))
      && (forall i: nat, how :: RestsSince(t, i, id, how) ==> RestsSince(before, i, id, how) && i < |before|)
  {
    var n := |t| - 1;
    RunsStep(t, id);
    forall i: nat, how: Terminal
      ensures RestsSince(t, i, id, how) <==> i != n && RestsSince(t[..n], i, id, how) && !OpensIt(t[n], id)
      ensures RestsSince(t[..n], i, id, how) ==> i < n
    {
      RestsStep(t, id, i, how);
    }
    hide Replays, Runs, RestsSince, EndsAs;
    if i: nat, how :| RestsSince(t[..n], i, id, how) && !OpensIt(t[n], id) {
      assert RestsSince(t, i, id, how);
    }
    if i: nat, how :| RestsSince(t, i, id, how) {
      assert RestsSince(t[..n], i, id, how);
    }
  }

  lemma RunsAfterOther(t: seq<Effect>, id: Id, s: Stream)
    requires t != [] && !On(t[|t| - 1], id)
    requires if OpensIt(t[|t| - 1], id) then !s.running && s.terminal == None else RunsAsTold(s, t[..|t| - 1], id)
    ensures RunsAsTold(s, t, id)
  {
    OtherStep(t, id);
    hide Runs, RestsSince;
    if i: nat, how :| RestsSince(t, i, id, how) {
      assert Rests(t, id);
    }
  }

  lemma {:induction false} RunsInLife(t: seq<Effect>, id: Id)
    requires Orderly(t, id)
    ensures if Life(t, id).Some? then RunsAsTold(Life(t, id).value, t, id) else !Runs(t, id) && !Rests(t, id)
  {
    hide After, Orderly, Trees.Good, FoldFacts, Replays, Runs, Rests, RunsAsTold, StartsFresh;
    if t == [] {
      NothingYet(id);
    } else {
      var before, x := t[..|t| - 1], t[|t| - 1];
      LifeBefore(t, id);
      ReplayInLife(before, id);
      RunsInLife(before, id);
      AfterFolds(x, Life(before, id), id);
      AnnounceIsFresh(x);
      if On(x, id) {
        var s := Life(before, id).value;
        RunningAtRest(s, before, id);
        RunFold(s, x.event, x.now);
        RunsGoOn(t, id, s, Life(t, id).value, x.now);
      } else if Life(t, id).Some? {
        RunsAfterOther(t, id, Life(t, id).value);
      } else {
        OtherStep(t, id);
      }
    }
  }

  lemma RunningAtRest(s: Stream, t: seq<Effect>, id: Id)
    requires RunsAsTold(s, t, id)
    ensures s.running ==> s.terminal == None
  {
  }

  /** Over every legal run a stream is running exactly when a message was delivered or a turn started
      live, and the stream neither ended its run nor closed nor started over since. At rest it shows the
      kind and the time of its last end, and none before its first. */
  lemma RunningIff(h: History, id: Id)
    requires LegalRun(h) && Has(Run(h).streams, id)
    ensures RunsAsTold(Get(Run(h).streams, id).value, Trace(h), id)
  {
    hide Run, Trace, LegalRun, Life, RunsAsTold, Orderly;
    RegisteredIsLife(h, id);
    RunsAreOrderly(h, id);
    RunsInLife(Trace(h), id);
  }

  // ---- the other facts

  /** Step `i` is the last to set the fact. */
  ghost predicate LastSets<E, T>(t: seq<E>, i: nat, sets: E -> Option<T>) {
    i < |t| && sets(t[i]).Some? && forall j :: i < j < |t| ==> sets(t[j]).None?
  }

  /** The fact is as the last step to set it left it. */
  ghost predicate LastLeft<E, T>(t: seq<E>, sets: E -> Option<T>, v: T) {
    exists i: nat :: LastSets(t, i, sets) && sets(t[i]).value == v
  }

  lemma LastLeftStep<E, T>(t: seq<E>, sets: E -> Option<T>, v: T)
    requires t != []
    ensures var before, x := t[..|t| - 1], t[|t| - 1];
      LastLeft(t, sets, v) <==> if sets(x).Some? then sets(x).value == v else LastLeft(before, sets, v)
  {
    var n := |t| - 1;
    var before := t[..n];
    if sets(t[n]).Some? {
      assert LastSets(t, n, sets);
    } else {
      if i: nat :| LastSets(before, i, sets) && sets(before[i]).value == v {
        assert LastSets(t, i, sets);
      }
      if i: nat :| LastSets(t, i, sets) && sets(t[i]).value == v {
        assert LastSets(before, i, sets);
      }
    }
  }

  function SetsSelection(id: Id): Effect -> Option<Option<Selection>> {
    (x: Effect) =>
      if OpensIt(x, id) then Some(None)
      else if On(x, id) && x.event.ModelSelected? then Some(Some(x.event.selection))
      else None
  }

  function SetsSkills(id: Id): Effect -> Option<seq<Skill>> {
    (x: Effect) =>
      if OpensIt(x, id) then Some([])
      else if On(x, id) && x.event.SkillsAvailable? then Some(x.event.skills)
      else None
  }

  /** What the conversation was last said to take: by a report of usage, or by a compaction's end. */
  function SetsContext(id: Id): Effect -> Option<Option<nat>> {
    (x: Effect) =>
      if OpensIt(x, id) then Some(None)
      else if On(x, id) && (x.event.CompletionCall? || x.event.CompactionStep?) then Some(Some(x.event.usage.total))
      else if On(x, id) && x.event.CompactionEnd? then Some(Some(x.event.after))
      else None
  }

  /** A compaction goes on until its end, its failure, or the stream's close; a retry goes on with it. */
  function SetsCompacting(id: Id): Effect -> Option<bool> {
    (x: Effect) =>
      if OpensIt(x, id) then Some(false)
      else if !On(x, id) then None
      else if x.event.CompactionBegin? then Some(true)
      else if x.event.CompactionEnd? || x.event.CompactionFailed? || x.event.SessionClosed? then Some(false)
      else None
  }

  function SetsClosed(id: Id): Effect -> Option<bool> {
    (x: Effect) =>
      if OpensIt(x, id) then Some(false)
      else if On(x, id) && x.event.SessionClosed? then Some(true)
      else None
  }

  /** The open turn's latest delta. */
  function SetsDelta(id: Id): Effect -> Option<Option<Delta>> {
    (x: Effect) =>
      if OpensIt(x, id) then Some(None)
      else if !On(x, id) then None
      else if x.event.TurnStarted? then Some(None)
      else if x.event.TextDelta? then Some(Some(Text))
      else if x.event.ReasoningDelta? then Some(Some(Reasoning))
      else None
  }

  /** The `task` argument of a call, once it was made. */
  function SetsTask(id: Id, call: Id): Effect -> Option<Option<Option<string>>> {
    (x: Effect) =>
      if OpensIt(x, id) then Some(None)
      else if On(x, id) && x.event.ToolCalled? && x.event.call == call then Some(Some(x.event.task))
      else None
  }

  function TaskOf(s: Stream, call: Id): Option<Option<string>> {
    if call in s.tasks then Some(s.tasks[call]) else None
  }

  /** What an announce alone decides. */
  function Announce(s: Stream): (Id, Option<Id>, Option<string>, Option<string>, Option<string>, bool) {
    (s.id, s.parent, s.title, s.path, s.cwd, s.resumed)
  }

  function SetsAnnounce(id: Id):
    Effect -> Option<(Id, Option<Id>, Option<string>, Option<string>, Option<string>, bool)>
  {
    (x: Effect) => if OpensIt(x, id) then Some(Announce(x.announced)) else None
  }

  ghost predicate SettingsAsTold(s: Stream, t: seq<Effect>, id: Id) {
    && LastLeft(t, SetsSelection(id), s.selection)
    && LastLeft(t, SetsSkills(id), s.skills)
    && LastLeft(t, SetsAnnounce(id), Announce(s))
    && LastLeft(t, SetsClosed(id), s.closed)
  }

  ghost predicate LoadAsTold(s: Stream, t: seq<Effect>, id: Id) {
    && LastLeft(t, SetsContext(id), s.contextUsed)
    && LastLeft(t, SetsCompacting(id), s.compacting)
  }

  ghost predicate TurnAsTold(s: Stream, t: seq<Effect>, id: Id) {
    && LastLeft(t, SetsDelta(id), s.lastDelta)
    && (forall call :: LastLeft(t, SetsTask(id, call), TaskOf(s, call)))
  }

  ghost predicate FactsAsTold(s: Stream, t: seq<Effect>, id: Id) {
    SettingsAsTold(s, t, id) && LoadAsTold(s, t, id) && TurnAsTold(s, t, id)
  }

  predicate SelectsOn(s: Stream, e: Event, r: Stream) {
    r.selection == if e.ModelSelected? then Some(e.selection) else s.selection
  }

  predicate SkillsGoOn(s: Stream, e: Event, r: Stream) {
    r.skills == if e.SkillsAvailable? then e.skills else s.skills
  }

  predicate LoadGoesOn(s: Stream, e: Event, r: Stream) {
    r.contextUsed == if e.CompletionCall? || e.CompactionStep? then Some(e.usage.total)
                     else if e.CompactionEnd? then Some(e.after) else s.contextUsed
  }

  predicate CompactsOn(s: Stream, e: Event, r: Stream) {
    r.compacting == (e.CompactionBegin?
                     || (s.compacting && !e.CompactionEnd? && !e.CompactionFailed? && !e.SessionClosed?))
  }

  predicate DeltasGoOn(s: Stream, e: Event, r: Stream) {
    r.lastDelta == if e.TurnStarted? then None else if e.TextDelta? then Some(Text)
                   else if e.ReasoningDelta? then Some(Reasoning) else s.lastDelta
  }

  predicate TasksGoOn(s: Stream, e: Event, r: Stream) {
    r.tasks == if e.ToolCalled? then s.tasks[e.call := e.task] else s.tasks
  }

  predicate ClosesOn(s: Stream, e: Event, r: Stream) {
    r.closed == (s.closed || e.SessionClosed?)
  }

  /** What an event leaves of the facts. */
  predicate FactsGoOn(s: Stream, e: Event, r: Stream) {
    && Announce(s) == Announce(r) && SelectsOn(s, e, r) && SkillsGoOn(s, e, r) && ClosesOn(s, e, r)
    && LoadGoesOn(s, e, r) && CompactsOn(s, e, r) && DeltasGoOn(s, e, r) && TasksGoOn(s, e, r)
    && (!Touches(e) ==> r.running == s.running && r.terminal == s.terminal && r.terminalAt == s.terminalAt)
    && r.replaying == (e.ReplayBegin? || (s.replaying && !e.ReplayEnd?))
  }

  lemma TurnsFold(s: Stream, e: Event, now: Clock, tree: Trees.Tree)
    requires e.UserMessage? || e.TurnStarted? || e.TextDelta? || e.ReasoningDelta?
    ensures FactsGoOn(s, e, FoldFacts(s, e, now).(tree := tree))
  {
    hide Metered, Unqueued, Put, Delete;
  }

  lemma EndsFold(s: Stream, e: Event, now: Clock, tree: Trees.Tree)
    requires e.RunFinished? || e.RunAborted? || e.RunFailed? || e.SessionClosed?
    ensures FactsGoOn(s, e, FoldFacts(s, e, now).(tree := tree))
  {
    hide Metered, Unqueued, Put, Delete;
  }

  lemma QueueAndCallsFold(s: Stream, e: Event, now: Clock, tree: Trees.Tree)
    requires e.MessageQueued? || e.MessagesDiscarded? || e.ToolCalled? || e.ToolResult?
    ensures FactsGoOn(s, e, FoldFacts(s, e, now).(tree := tree))
  {
    hide Metered, Unqueued, Put, Delete;
  }

  lemma CompactionFold(s: Stream, e: Event, now: Clock, tree: Trees.Tree)
    requires e.CompletionCall? || e.CompactionBegin? || e.CompactionStep? || e.CompactionEnd? || e.CompactionFailed?
    ensures FactsGoOn(s, e, FoldFacts(s, e, now).(tree := tree))
  {
    hide Metered, Unqueued, Put, Delete;
  }

  lemma SettingsFold(s: Stream, e: Event, now: Clock, tree: Trees.Tree)
    requires e.ReplayBegin? || e.ReplayEnd? || e.SkillsAvailable? || e.ModelSelected?
    ensures FactsGoOn(s, e, FoldFacts(s, e, now).(tree := tree))
  {
    hide Metered, Unqueued, Put, Delete;
  }

  lemma FactsFold(s: Stream, e: Event, now: Clock, tree: Trees.Tree)
    ensures FactsGoOn(s, e, FoldFacts(s, e, now).(tree := tree))
  {
    if e.UserMessage? || e.TurnStarted? || e.TextDelta? || e.ReasoningDelta? {
      TurnsFold(s, e, now, tree);
    } else if e.RunFinished? || e.RunAborted? || e.RunFailed? || e.SessionClosed? {
      EndsFold(s, e, now, tree);
    } else if e.MessageQueued? || e.MessagesDiscarded? || e.ToolCalled? || e.ToolResult? {
      QueueAndCallsFold(s, e, now, tree);
    } else if e.CompletionCall? || e.CompactionBegin? || e.CompactionStep? || e.CompactionEnd? || e.CompactionFailed? {
      CompactionFold(s, e, now, tree);
    } else if e.ReplayBegin? || e.ReplayEnd? || e.SkillsAvailable? || e.ModelSelected? {
      SettingsFold(s, e, now, tree);
    } else {
      assert FoldFacts(s, e, now) == s;
    }
    hide FoldFacts;
  }

  /** What the last step of the record makes of a stream that was `s` before it. */
  ghost predicate GoesOn(t: seq<Effect>, id: Id, s: Option<Stream>, r: Stream) {
    && t != []
    && var x := t[|t| - 1];
       if OpensIt(x, id) then StartsFresh(x) && r == x.announced
       else s.Some? && if On(x, id) then FactsGoOn(s.value, x.event, r) else s == Some(r)
  }

  lemma SettingsStep(t: seq<Effect>, id: Id, s: Option<Stream>, r: Stream)
    requires GoesOn(t, id, s, r) && (s.Some? ==> SettingsAsTold(s.value, t[..|t| - 1], id))
    ensures SettingsAsTold(r, t, id)
  {
    hide LastLeft;
    LastLeftStep(t, SetsSelection(id), r.selection);
    LastLeftStep(t, SetsSkills(id), r.skills);
    LastLeftStep(t, SetsAnnounce(id), Announce(r));
    LastLeftStep(t, SetsClosed(id), r.closed);
  }

  lemma LoadStep(t: seq<Effect>, id: Id, s: Option<Stream>, r: Stream)
    requires GoesOn(t, id, s, r) && (s.Some? ==> LoadAsTold(s.value, t[..|t| - 1], id))
    ensures LoadAsTold(r, t, id)
  {
    hide LastLeft;
    LastLeftStep(t, SetsContext(id), r.contextUsed);
    LastLeftStep(t, SetsCompacting(id), r.compacting);
  }

  lemma TurnStep(t: seq<Effect>, id: Id, s: Option<Stream>, r: Stream)
    requires GoesOn(t, id, s, r) && (s.Some? ==> TurnAsTold(s.value, t[..|t| - 1], id))
    ensures TurnAsTold(r, t, id)
  {
    hide LastLeft;
    LastLeftStep(t, SetsDelta(id), r.lastDelta);
    forall call
      ensures LastLeft(t, SetsTask(id, call), TaskOf(r, call))
    {
      LastLeftStep(t, SetsTask(id, call), TaskOf(r, call));
      assert s.Some? ==> LastLeft(t[..|t| - 1], SetsTask(id, call), TaskOf(s.value, call));
    }
  }

  lemma LifeGoesOn(t: seq<Effect>, id: Id)
    requires t != [] && Orderly(t, id)
    ensures Life(t, id).Some? ==> GoesOn(t, id, Life(t[..|t| - 1], id), Life(t, id).value)
  {
    hide After, Orderly, Trees.Good, FoldFacts, FactsGoOn, StartsFresh;
    var before, x := t[..|t| - 1], t[|t| - 1];
    LifeBefore(t, id);
    AfterFolds(x, Life(before, id), id);
    if On(x, id) {
      var s := Life(before, id).value;
      var tree :| Life(t, id) == Some(FoldFacts(s, x.event, x.now).(tree := tree));
      FactsFold(s, x.event, x.now, tree);
    }
  }

  lemma {:induction false} FactsInLife(t: seq<Effect>, id: Id)
    requires Orderly(t, id)
    ensures Life(t, id).Some? ==> FactsAsTold(Life(t, id).value, t, id)
  {
    hide After, Orderly, Life, GoesOn, SettingsAsTold, LoadAsTold, TurnAsTold;
    if t == [] {
      NoLifeYet(id);
    } else {
      var before := t[..|t| - 1];
      OrderlyBefore(t, id);
      FactsInLife(before, id);
      LifeGoesOn(t, id);
      if Life(t, id).Some? {
        SettingsStep(t, id, Life(before, id), Life(t, id).value);
        LoadStep(t, id, Life(before, id), Life(t, id).value);
        TurnStep(t, id, Life(before, id), Life(t, id).value);
      }
    }
  }

  lemma NoLifeYet(id: Id)
    ensures Life([], id) == None
  {
  }

  /** Over every legal run each of a stream's facts is what the last step to state it said: its model, its
      skills, the length of its conversation, whether it compacts, whether it closed, the kind of the
      latest delta, every call's task, and what its announce alone decides. */
  lemma FactsAreTheLast(h: History, id: Id)
    requires LegalRun(h) && Has(Run(h).streams, id)
    ensures FactsAsTold(Get(Run(h).streams, id).value, Trace(h), id)
  {
    hide Run, Trace, LegalRun, Life, FactsAsTold, Orderly;
    RegisteredIsLife(h, id);
    RunsAreOrderly(h, id);
    FactsInLife(Trace(h), id);
  }

  // ---- the length a compaction starts from

  /** While it compacts, a stream holds the length its conversation had when the compaction began, whatever
      its own steps report since. */
  ghost predicate BaselineAsTold(s: Stream, t: seq<Effect>, id: Id) {
    s.compacting ==> exists i: nat :: BeganCompacting(t, i, id) && LastLeft(t[..i], SetsContext(id), s.compactionFrom)
  }

  ghost predicate BeganCompacting(t: seq<Effect>, i: nat, id: Id) {
    LastSets(t, i, SetsCompacting(id)) && On(t[i], id) && t[i].event.CompactionBegin?
  }

  lemma BaselineFold(s: Stream, e: Event, now: Clock)
    ensures var r := FoldFacts(s, e, now);
      && (e.CompactionBegin? ==> r.compacting && r.compactionFrom == s.contextUsed)
      && (r.compacting && !e.CompactionBegin? ==> s.compacting && r.compactionFrom == s.compactionFrom)
  {
    hide Metered, Unqueued, Put, Delete;
  }

  lemma BaselineGoesOn(t: seq<Effect>, id: Id, s: Option<Stream>, r: Stream)
    requires t != []
    requires var x := t[|t| - 1];
      if OpensIt(x, id) then !r.compacting
      else if On(x, id) then
        && s.Some? && LastLeft(t[..|t| - 1], SetsContext(id), s.value.contextUsed)
        && (x.event.CompactionBegin? ==> r.compacting && r.compactionFrom == s.value.contextUsed)
        && (r.compacting && !x.event.CompactionBegin? ==>
              s.value.compacting && r.compactionFrom == s.value.compactionFrom
              && SetsCompacting(id)(x).None?)
      else s == Some(r)
    requires s.Some? ==> BaselineAsTold(s.value, t[..|t| - 1], id)
    ensures BaselineAsTold(r, t, id)
  {
    hide LastLeft;
    var n := |t| - 1;
    var before, x := t[..n], t[n];
    if r.compacting {
      if On(x, id) && x.event.CompactionBegin? {
        assert BeganCompacting(t, n, id);
      } else {
        var i: nat :| BeganCompacting(before, i, id) && LastLeft(before[..i], SetsContext(id), s.value.compactionFrom);
        assert before[..i] == t[..i] && BeganCompacting(t, i, id);
      }
    }
  }

  lemma {:induction false} BaselineInLife(t: seq<Effect>, id: Id)
    requires Orderly(t, id)
    ensures Life(t, id).Some? ==> BaselineAsTold(Life(t, id).value, t, id)
  {
    hide After, Orderly, Trees.Good, FoldFacts, StartsFresh, BaselineAsTold, SettingsAsTold, TurnAsTold, LastLeft;
    if t != [] {
      var before, x := t[..|t| - 1], t[|t| - 1];
      LifeBefore(t, id);
      BaselineInLife(before, id);
      FactsInLife(before, id);
      AfterFolds(x, Life(before, id), id);
      AnnounceIsFresh(x);
      if On(x, id) {
        BaselineFold(Life(before, id).value, x.event, x.now);
        CompactingFold(Life(before, id).value, x, id);
      }
      if Life(t, id).Some? {
        BaselineGoesOn(t, id, Life(before, id), Life(t, id).value);
      }
    }
  }

  lemma CompactingFold(s: Stream, x: Effect, id: Id)
    requires On(x, id)
    ensures FoldFacts(s, x.event, x.now).compacting && !x.event.CompactionBegin? ==> SetsCompacting(id)(x).None?
  {
    FactsFold(s, x.event, x.now, s.tree);
    hide FoldFacts;
  }

  /** Over every legal run. */
  lemma BaselineIsTheBegin(h: History, id: Id)
    requires LegalRun(h) && Has(Run(h).streams, id)
    ensures BaselineAsTold(Get(Run(h).streams, id).value, Trace(h), id)
  {
    hide Run, Trace, LegalRun, Life, BaselineAsTold, Orderly;
    RegisteredIsLife(h, id);
    RunsAreOrderly(h, id);
    BaselineInLife(Trace(h), id);
  }
}
