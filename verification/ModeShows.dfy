/** What the mode shows after a run: the dock, the subagent list, the landing page and the program status,
    each read off the record of the run. */
module ModeShows {
  import opened Wrappers
  import opened Assoc
  import opened Streams
  import opened Modes
  import opened ModeLaws
  import opened ModeRuns
  import opened StreamLives
  import opened StreamFacts
  import opened ModeFacts

  // ---- the dock

  /** The stream is the root. */
  ghost predicate IsRootBy(h: History, id: Id) {
    LastOr(Trace(h), SetsRoot(), None, Some(id))
  }

  /** The label of a stream that is not the root: its title, or its id where it has none. */
  ghost predicate LabelledBy(h: History, e: Event, name: string)
    requires e.SessionOpened?
  {
    TitledBy(h, e, Some(name)) || (TitledBy(h, e, None) && name == e.id)
  }

  /** The part of the footer that the stream's announce in step `i` decides. */
  ghost predicate FooterNames(h: History, i: nat, f: Footer)
    requires i < |h| && IsAnnounce(h[i].0)
  {
    var e := h[i].0.frame.event;
    && f.session == e.id && f.resumed == e.resumed
    && f.path == (if e.path == "" then None else Some(e.path))
    && f.cwd == (if e.cwd == "" then None else Some(e.cwd))
    && (f.marker.None? <==> IsRootBy(h, e.id))
    && (f.marker.Some? ==> LabelledBy(h[..i], e, f.marker.value))
  }

  ghost predicate FooterTells(h: History, id: Id, f: Footer) {
    var t := Trace(h);
    && (exists i: nat :: AnnouncedAt(h, i, id) && FooterNames(h, i, f))
    && (f.running <==> Runs(t, id))
    && LastLeft(t, SetsClosed(id), f.closed)
    && LastLeft(t, SetsSelection(id), f.selection)
    && LastLeft(t, SetsContext(id), f.contextUsed)
    && Sums(f.spend, Reports(t, id))
    && LastOr(h, SetsChannel(), None, f.channel)
  }

  /** A compaction outranks a run, and a run the catalog check. */
  ghost predicate StatusTells(h: History, id: Id, status: Status) {
    var t := Trace(h);
    var compacts, checks := LastLeft(t, SetsCompacting(id), true), LastOr(h, SetsChecking(), false, true);
    && (status == Compacting <==> compacts)
    && (status == Busy <==> !compacts && Runs(t, id))
    && (status == Checking <==> !compacts && !Runs(t, id) && checks)
    && (status == Resting <==> !compacts && !Runs(t, id) && !checks)
  }

  lemma LastOrOnce<E, T>(t: seq<E>, sets: E -> Option<T>, first: T, v: T, w: T)
    requires LastOr(t, sets, first, v) && LastOr(t, sets, first, w)
    ensures v == w
  {
  }

  lemma RootIff(h: History, id: Id)
    requires LegalRun(h)
    ensures IsRootBy(h, id) <==> Run(h).root == Some(id)
  {
    hide Run, LegalRun, Trace, LastOr;
    RootIsTheLast(h);
    if IsRootBy(h, id) {
      LastOrOnce(Trace(h), SetsRoot(), None, Run(h).root, Some(id));
    }
  }

  lemma FooterIsNamed(h: History, i: nat, s: Stream, f: Footer)
    requires LegalRun(h) && i < |h| && IsAnnounce(h[i].0) && SaysAnnounce(h, i, s)
    requires f == FooterOf(Run(h).root, Run(h).channel, s)
    ensures FooterNames(h, i, f)
  {
    hide Run, LegalRun, TitledBy, IsRootBy;
    RootIff(h, s.id);
  }

  /** What the footer shows of a stream is what the run tells of it. */
  lemma FooterIsTold(h: History, id: Id)
    requires LegalRun(h) && Has(Run(h).streams, id)
    ensures FooterTells(h, id, FooterOf(Run(h).root, Run(h).channel, Get(Run(h).streams, id).value))
  {
    hide Run, LegalRun, Trace, LastLeft, LastOr, Sums, Reports, Runs, Rests, RestsSince, SaysAnnounce,
         FooterNames, TurnAsTold;
    var s := Get(Run(h).streams, id).value;
    AnnounceIs(h, id);
    var i: nat :| AnnouncedAt(h, i, id) && SaysAnnounce(h, i, s);
    FooterIsNamed(h, i, s, FooterOf(Run(h).root, Run(h).channel, s));
    RunningIff(h, id);
    FactsAreTheLast(h, id);
    UsageIsTheSum(h, id);
    InventoryIsTheLast(h);
  }

  /** The status line shows what the run tells of the stream. */
  lemma StatusIsTold(h: History, id: Id)
    requires LegalRun(h) && Has(Run(h).streams, id)
    ensures StatusTells(h, id, StatusOf(Run(h).checking, Get(Run(h).streams, id).value))
  {
    hide Run, LegalRun, Trace, LastLeft, LastOr, Runs, Rests, RestsSince, TurnAsTold, SettingsAsTold;
    var m := Run(h);
    var s := Get(m.streams, id).value;
    RunningIff(h, id);
    FactsAreTheLast(h, id);
    InventoryIsTheLast(h);
    if LastLeft(Trace(h), SetsCompacting(id), true) {
      LastLeftOnce(Trace(h), SetsCompacting(id), s.compacting, true);
    }
    if LastOr(h, SetsChecking(), false, true) {
      LastOrOnce(h, SetsChecking(), false, m.checking, true);
    }
  }

  // ---- the subagent list

  /** A card is up that the stream asked for. */
  ghost predicate Asking(t: seq<Effect>, id: Id) {
    exists request, card, i: nat :: UpSince(t, i, request, id, card)
  }

  /** A call of the stream waits for its result. */
  ghost predicate OpenCall(t: seq<Effect>, id: Id, call: Id, tool: string) {
    exists i: nat :: CalledSince(t, i, id, call, tool)
  }

  /** `calls` are the open calls of the stream. */
  ghost predicate OpenCalls(t: seq<Effect>, id: Id, calls: set<Id>) {
    forall call :: call in calls <==> exists tool :: OpenCall(t, id, call, tool)
  }

  /** A card outranks open calls, calls outrank the run, and at rest the row shows the last end. */
  ghost predicate ActivityTells(t: seq<Effect>, id: Id, a: Activity) {
    exists calls :: OpenCalls(t, id, calls) &&
      if Asking(t, id) then a == Waiting
      else if |calls| == 1 then exists call, tool :: OpenCall(t, id, call, tool) && a == Calling(tool)
      else if |calls| > 1 then a == Tools(|calls|)
      else if Runs(t, id) then a == if LastLeft(t, SetsDelta(id), Some(Reasoning)) then Thinking else Working
      else if Rests(t, id) then exists i: nat, how :: RestsSince(t, i, id, how) && a == Rested(how)
      else a == Unused
  }

  /** Some card of the table is the stream's. */
  ghost predicate Holds(cards: Assoc<Id, OpenCard>, id: Id) {
    exists request, card :: Get(cards, request) == Some(OpenCard(card, id))
  }

  lemma {:induction false} AwaitedIff(cards: Assoc<Id, OpenCard>, id: Id)
    requires Distinct(cards)
    ensures AwaitedBy(cards, id) <==> Holds(cards, id)
  {
    if cards != [] {
      var rest := cards[1..];
      AwaitedIff(rest, id);
      if cards[0].1.stream == id {
        assert Get(cards, cards[0].0) == Some(OpenCard(cards[0].1.card, id));
      } else {
        if request, card :| Get(rest, request) == Some(OpenCard(card, id)) {
          assert Get(cards, request) == Some(OpenCard(card, id));
        }
        if request, card :| Get(cards, request) == Some(OpenCard(card, id)) {
          assert Get(rest, request) == Some(OpenCard(card, id));
        }
      }
    }
  }

  lemma AskingIff(h: History, id: Id)
    requires LegalRun(h)
    ensures AwaitedBy(Run(h).cards, id) <==> Asking(Trace(h), id)
  {
    hide Run, LegalRun, Trace, UpSince, AwaitedBy, Get, Distinct;
    var any: Card :| true;
    CardIsOpenIff(h, "", id, any);
    AwaitedIff(Run(h).cards, id);
    if request, card :| Get(Run(h).cards, request) == Some(OpenCard(card, id)) {
      CardIsOpenIff(h, request, id, card);
    }
    if request, card, i: nat :| UpSince(Trace(h), i, request, id, card) {
      CardIsOpenIff(h, request, id, card);
    }
  }

  lemma {:induction false} CallsDistinctInLife(t: seq<Effect>, id: Id)
    requires Orderly(t, id)
    ensures Life(t, id).Some? ==> Distinct(Life(t, id).value.openCalls)
  {
    hide After, Orderly, StartsFresh, FoldFacts, Distinct, Put, Delete;
    if t != [] {
      var before, x := t[..|t| - 1], t[|t| - 1];
      LifeBefore(t, id);
      CallsDistinctInLife(before, id);
      AfterFolds(x, Life(before, id), id);
      FreshCalls(x);
      if On(x, id) {
        CallsFold(Life(before, id).value, x.event, x.now);
      }
    }
  }

  lemma FreshCalls(x: Effect)
    requires StartsFresh(x)
    ensures x.Opens? ==> Distinct(x.announced.openCalls)
  {
  }

  lemma CallsFold(s: Stream, e: Event, now: Clock)
    requires Distinct(s.openCalls)
    ensures Distinct(FoldFacts(s, e, now).openCalls)
  {
    if e.ToolCalled? {
      PutDistinct(s.openCalls, e.call, e.made.name);
    } else if e.ToolResult? {
      DeleteDistinct(s.openCalls, e.call);
    }
    hide Metered, Unqueued, Put, Delete, Distinct;
  }

  /** The set of a table's keys. */
  function KeySet(m: Assoc<Id, string>): set<Id> {
    set k | k in Keys(m)
  }

  lemma {:induction false} KeySetSize(m: Assoc<Id, string>)
    requires Distinct(m)
    ensures |KeySet(m)| == |m|
  {
    if m != [] {
      KeySetSize(m[1..]);
      HasIffListed(m[1..], m[0].0);
      assert KeySet(m) == {m[0].0} + KeySet(m[1..]);
    }
  }

  lemma OpenCallsAre(h: History, id: Id)
    requires LegalRun(h) && Has(Run(h).streams, id)
    ensures var calls := Get(Run(h).streams, id).value.openCalls;
      && OpenCalls(Trace(h), id, KeySet(calls)) && |KeySet(calls)| == |calls|
      && (forall call, tool :: Get(calls, call) == Some(tool) <==> OpenCall(Trace(h), id, call, tool))
  {
    hide Run, LegalRun, Trace, CalledSince, Get, Distinct, Life, Orderly;
    var calls := Get(Run(h).streams, id).value.openCalls;
    RegisteredIsLife(h, id);
    RunsAreOrderly(h, id);
    CallsDistinctInLife(Trace(h), id);
    KeySetSize(calls);
    forall call, tool
      ensures Get(calls, call) == Some(tool) <==> OpenCall(Trace(h), id, call, tool)
    {
      CallIsOpenIff(h, id, call, tool);
    }
    forall call
      ensures call in KeySet(calls) <==> exists tool :: OpenCall(Trace(h), id, call, tool)
    {
      HasIffListed(calls, call);
      if Has(calls, call) {
        assert OpenCall(Trace(h), id, call, Get(calls, call).value);
      }
    }
  }

  /** The activity of a stream is what the run tells of it. */
  lemma ActivityIsTold(h: History, id: Id)
    requires LegalRun(h) && Has(Run(h).streams, id)
    ensures ActivityTells(Trace(h), id, ActivityOf(Get(Run(h).streams, id).value, AwaitedBy(Run(h).cards, id)))
  {
    hide Run, LegalRun, Trace, LastLeft, RestsSince, Asking, OpenCall, OpenCalls, Runs, AwaitedBy, KeySet,
         SettingsAsTold, LoadAsTold;
    var s := Get(Run(h).streams, id).value;
    AskingIff(h, id);
    OpenCallsAre(h, id);
    RunningIff(h, id);
    FactsAreTheLast(h, id);
    if LastLeft(Trace(h), SetsDelta(id), Some(Reasoning)) {
      LastLeftOnce(Trace(h), SetsDelta(id), s.lastDelta, Some(Reasoning));
    }
    assert s.openCalls != [] ==> Get(s.openCalls, s.openCalls[0].0) == Some(s.openCalls[0].1);
  }

  /** The part of a row that the stream's announce decides. */
  ghost predicate RowNames(h: History, i: nat, r: Row)
    requires i < |h| && IsAnnounce(h[i].0)
  {
    var e := h[i].0.frame.event;
    && e.id == r.stream && e.parent == Some(r.parent)
    && (TitledBy(h[..i], e, Some(r.title)) || (TitledBy(h[..i], e, None) && r.title == "subagent"))
  }

  ghost predicate RowTells(h: History, r: Row) {
    var t := Trace(h);
    && (exists i: nat :: AnnouncedAt(h, i, r.stream) && RowNames(h, i, r))
    && ActivityTells(t, r.stream, r.activity)
    && (r.running <==> Runs(t, r.stream))
    && (r.idleSince.Some? <==> Rests(t, r.stream))
    && (forall i: nat, how :: RestsSince(t, i, r.stream, how) ==> r.idleSince == Some(t[i].now))
  }

  lemma RowIsTold(h: History, id: Id)
    requires LegalRun(h) && Has(Run(h).streams, id) && Get(Run(h).streams, id).value.parent.Some?
    ensures RowTells(h, RowOf(Get(Run(h).streams, id).value, Run(h).cards))
  {
    hide Run, LegalRun, Trace, RestsSince, Runs, Rests, ActivityTells, ActivityOf, AwaitedBy, TitledBy;
    var s := Get(Run(h).streams, id).value;
    AnnounceIs(h, id);
    var i: nat :| AnnouncedAt(h, i, id) && SaysAnnounce(h, i, s);
    assert RowNames(h, i, RowOf(s, Run(h).cards));
    RunningIff(h, id);
    ActivityIsTold(h, id);
  }

  /** The list has a row for every registered child, and it shows what the run tells of that child. */
  lemma ListIsTold(h: History, r: Row)
    requires LegalRun(h) && r in RowsOf(Run(h).streams, Run(h).cards)
    ensures Has(Run(h).streams, r.stream) && Get(Run(h).streams, r.stream).value.parent.Some? && RowTells(h, r)
  {
    hide Run, LegalRun, RowTells, RowOf, Core;
    RunKeepsSane(h);
    CoreIsTidy(Run(h));
    RowOfListed(Run(h).streams, Run(h).cards, r);
    hide Tidy;
    RowIsTold(h, r.stream);
  }

  // ---- the landing page

  ghost predicate HeroTells(h: History, f: Hero) {
    var t := Trace(h);
    && IsRootBy(h, f.session)
    && (exists i: nat :: AnnouncedAt(h, i, f.session)
                         && f.cwd == (if h[i].0.frame.event.cwd == "" then None else Some(h[i].0.frame.event.cwd)))
    && LastLeft(t, SetsSelection(f.session), f.selection)
    && LastLeft(t, SetsSkills(f.session), f.skills)
    && LastOr(h, SetsOnDisk(), None, f.sessionsOnDisk)
    && LastOr(h, SetsModels(), [], f.modelCounts)
    && (exists seen :: LastOr(h, SetsExtensions(), None, seen)
                       && f.extensions == if seen == Some(([], 0)) then None else seen)
  }

  /** While it is up, the landing page shows what the run tells of the root and of the inventory. */
  lemma HeroIsTold(h: History)
    requires LegalRun(h) && Run(h).heroActive
    ensures Run(h).hero.Some? && HeroTells(h, Run(h).hero.value)
  {
    hide Run, LegalRun, Trace, LastLeft, LastOr, IsRootBy, TitledBy, LoadAsTold, TurnAsTold;
    HeroIsCurrent(h);
    var m := Run(h);
    var id := m.root.value;
    var s := Get(m.streams, id).value;
    RootIff(h, id);
    AnnounceIs(h, id);
    var i: nat :| AnnouncedAt(h, i, id) && SaysAnnounce(h, i, s);
    FactsAreTheLast(h, id);
    InventoryIsTheLast(h);
    var f := m.hero.value;
    assert f.session == id && f == HeroOf(m, s);
    assert LastOr(h, SetsExtensions(), None, m.extensions)
           && f.extensions == if m.extensions == Some(([], 0)) then None else m.extensions;
  }

  // ---- the program status

  /** Some stream of the run is busy. */
  ghost predicate Underway(t: seq<Effect>) {
    exists id :: Engaged(t, id)
  }

  ghost predicate Engaged(t: seq<Effect>, id: Id) {
    Runs(t, id) || LastLeft(t, SetsCompacting(id), true)
  }

  lemma {:induction false} BusierIff(streams: Assoc<Id, Stream>)
    requires Tidy(streams)
    ensures Busier(streams) <==>
            exists id :: Has(streams, id) && (Get(streams, id).value.running || Get(streams, id).value.compacting)
  {
    hide AtRest;
    if streams != [] {
      var rest := streams[1..];
      BusierIff(rest);
      if streams[0].1.running || streams[0].1.compacting {
        assert Has(streams, streams[0].0);
      } else {
        if id :| Has(rest, id) && (Get(rest, id).value.running || Get(rest, id).value.compacting) {
          assert Get(streams, id) == Get(rest, id) && Has(streams, id);
        }
        if id :| Has(streams, id) && (Get(streams, id).value.running || Get(streams, id).value.compacting) {
          assert Get(streams, id) == Get(rest, id) && Has(rest, id);
        }
      }
    }
  }

  lemma EngagedIff(h: History, id: Id)
    requires LegalRun(h)
    ensures Engaged(Trace(h), id) <==>
            Has(Run(h).streams, id)
            && (Get(Run(h).streams, id).value.running || Get(Run(h).streams, id).value.compacting)
  {
    hide Run, LegalRun, Trace, Life, Orderly, Runs, Rests, RestsSince, SettingsAsTold, TurnAsTold, SetsCompacting;
    var t := Trace(h);
    RunsAreOrderly(h, id);
    StreamsLiveAlone(h, id);
    LifeIsQuiet(t, id);
    RunsInLife(t, id);
    FactsInLife(t, id);
    var life := Life(t, id);
    if life.None? {
      NoLifeNoSteps(t, id);
      NothingCompacts(t, id);
    } else if LastLeft(t, SetsCompacting(id), true) {
      LastLeftOnce(t, SetsCompacting(id), life.value.compacting, true);
    }
  }

  lemma NothingCompacts(t: seq<Effect>, id: Id)
    requires forall i :: 0 <= i < |t| ==> !OpensIt(t[i], id) && !On(t[i], id)
    ensures !LastLeft(t, SetsCompacting(id), true)
  {
  }

  lemma BusyIff(h: History)
    requires LegalRun(h)
    ensures Busier(Run(h).streams) <==> Underway(Trace(h))
  {
    hide Run, LegalRun, Trace, Engaged, Tidy, Core;
    RunKeepsSane(h);
    CoreIsTidy(Run(h));
    BusierIff(Run(h).streams);
    forall id
      ensures Engaged(Trace(h), id) <==>
              Has(Run(h).streams, id)
              && (Get(Run(h).streams, id).value.running || Get(Run(h).streams, id).value.compacting)
    {
      EngagedIff(h, id);
    }
  }

  // ---- the order of the cards

  /** `a` stands before `b` in the table. */
  ghost predicate Precedes<V>(m: Assoc<Id, V>, a: Id, b: Id) {
    exists p, q :: 0 <= p < q < |m| && m[p].0 == a && m[q].0 == b
  }

  lemma PrecedesHead<V>(m: Assoc<Id, V>, a: Id, b: Id)
    requires m != []
    ensures Precedes(m, a, b) <==>
            (a == m[0].0 && exists q :: 0 <= q < |m[1..]| && m[1..][q].0 == b) || Precedes(m[1..], a, b)
  {
    var rest := m[1..];
    if p, q :| 0 <= p < q < |m| && m[p].0 == a && m[q].0 == b {
      assert rest[q - 1].0 == b;
      if p > 0 {
        assert rest[p - 1].0 == a;
      }
    }
    if q :| 0 <= q < |rest| && rest[q].0 == b {
      assert m[q + 1].0 == b;
    }
    if p, q :| 0 <= p < q < |rest| && rest[p].0 == a && rest[q].0 == b {
      assert m[p + 1].0 == a && m[q + 1].0 == b;
    }
  }

  lemma {:induction false} HasAt<V>(m: Assoc<Id, V>, k: Id)
    ensures Has(m, k) <==> exists q :: 0 <= q < |m| && m[q].0 == k
  {
    if m != [] {
      HasAt(m[1..], k);
      if q :| 0 <= q < |m[1..]| && m[1..][q].0 == k {
        assert m[q + 1].0 == k;
      }
      if q :| 0 <= q < |m| && m[q].0 == k {
        if q > 0 {
          assert m[1..][q - 1].0 == k;
        }
      }
    }
  }

  /** A put, a deletion and the end of a stream's cards leave the others in their order; a new key comes
      last. */
  lemma {:induction false} PutPrecedes<V>(m: Assoc<Id, V>, k: Id, v: V, a: Id, b: Id)
    requires Precedes(Put(m, k, v), a, b)
    ensures Precedes(m, a, b) || (b == k && !Has(m, k))
  {
    hide Precedes;
    PrecedesHead(Put(m, k, v), a, b);
    if m == [] {
      NothingPrecedes<V>(a, b);
    } else {
      PrecedesHead(m, a, b);
      var put := Put(m[1..], k, v);
      if m[0].0 != k {
        assert Put(m, k, v)[1..] == put;
        HasAt(put, b);
        HasAt(m[1..], b);
        GetPut(m[1..], k, v, b);
        if Precedes(put, a, b) {
          PutPrecedes(m[1..], k, v, a, b);
        }
      }
    }
  }

  lemma NothingPrecedes<V>(a: Id, b: Id)
    ensures !Precedes<V>([], a, b)
  {
  }

  lemma {:induction false} DeletePrecedes<V>(m: Assoc<Id, V>, k: Id, a: Id, b: Id)
    requires Precedes(Delete(m, k), a, b)
    ensures Precedes(m, a, b)
  {
    hide Precedes;
    if m == [] {
      NothingPrecedes<V>(a, b);
    } else {
      var left := Delete(m[1..], k);
      PrecedesHead(m, a, b);
      if m[0].0 == k {
        DeletePrecedes(m[1..], k, a, b);
      } else {
        assert ([m[0]] + left)[1..] == left;
        PrecedesHead([m[0]] + left, a, b);
        HasAt(left, b);
        HasAt(m[1..], b);
        GetDelete(m[1..], k, b);
        if Precedes(left, a, b) {
          DeletePrecedes(m[1..], k, a, b);
        }
      }
    }
  }

  lemma {:induction false} WithoutStreamPrecedes(m: Assoc<Id, OpenCard>, id: Id, a: Id, b: Id)
    requires Distinct(m) && Precedes(WithoutStream(m, id), a, b)
    ensures Precedes(m, a, b)
  {
    hide Precedes;
    if m == [] {
      NothingPrecedes<OpenCard>(a, b);
    } else {
      var left := WithoutStream(m[1..], id);
      PrecedesHead(m, a, b);
      if m[0].1.stream == id {
        assert WithoutStream(m, id) == left;
        WithoutStreamPrecedes(m[1..], id, a, b);
      } else {
        assert ([m[0]] + left)[1..] == left;
        PrecedesHead([m[0]] + left, a, b);
        HasAt(left, b);
        HasAt(m[1..], b);
        WithoutStreamGet(m[1..], id, b);
        if Precedes(left, a, b) {
          WithoutStreamPrecedes(m[1..], id, a, b);
        }
      }
    }
  }

  lemma StepPrecedes(x: Effect, cards: Assoc<Id, OpenCard>, a: Id, b: Id)
    requires Distinct(cards) && Precedes(CardsAfter(x, cards), a, b)
    ensures Precedes(cards, a, b) || !Has(cards, b)
  {
    hide Precedes, Put, Delete, WithoutStream, ParseCard, Distinct, Get;
    match x
    case Replies(request, _) => DeletePrecedes(cards, request, a, b);
    case Folds(stream, e, _) =>
      if e.RunFinished? || e.RunAborted? {
        WithoutStreamPrecedes(cards, stream, a, b);
      } else if e.InteractionSettled? {
        DeletePrecedes(cards, e.request, a, b);
      } else if e.InteractionRequest? {
        var parsed := ParseCard(e.request, e.uiType, e.payload);
        if parsed.Some? {
          PutPrecedes(cards, parsed.value.id, OpenCard(parsed.value, stream), a, b);
        }
      }
    case _ =>
  }

  /** From step `i` on the request always had its card up. */
  ghost predicate UpFrom(h: History, i: nat, request: Id) {
    i <= |h| && forall j {:trigger Run(h[..j])} :: i <= j <= |h| ==> Has(Run(h[..j]).cards, request)
  }

  lemma UpFromStep(h: History, i: nat, request: Id)
    requires h != []
    ensures UpFrom(h, i, request) <==>
            i <= |h| && Has(Run(h).cards, request) && (i < |h| ==> UpFrom(h[..|h| - 1], i, request))
  {
    hide Run;
    var n := |h| - 1;
    var before := h[..n];
    assert h[..|h|] == h && before[..n] == before;
    assert forall j :: 0 <= j <= n ==> before[..j] == h[..j];
    if UpFrom(h, i, request) {
      assert Has(Run(h[..|h|]).cards, request);
    }
  }

  /** A card stands before every card that went up after it. */
  lemma {:induction false} CardsInOrder(h: History, a: Id, b: Id, i: nat)
    requires LegalRun(h) && Precedes(Run(h).cards, a, b) && UpFrom(h, i, b)
    ensures UpFrom(h, i, a)
    decreases |h|
  {
    hide Step, EffectOf, LegalStep, Sane, Precedes, UpFrom, CardsAfter;
    if h == [] {
      NothingPrecedes<OpenCard>(a, b);
    } else {
      var n := |h| - 1;
      var before := h[..n];
      var m := Run(before);
      RunKeepsSane(before);
      StepCards(m, h[n].0, h[n].1);
      CardsDistinct(before);
      StepPrecedes(EffectOf(m, h[n].0, h[n].1), m.cards, a, b);
      UpFromStep(h, i, a);
      UpFromStep(h, i, b);
      PrecederIsThere(Run(h).cards, a, b);
      if i <= n {
        UpAtEnd(before, i, b);
        CardsInOrder(before, a, b, i);
      }
    }
  }

  lemma PrecederIsThere(m: Assoc<Id, OpenCard>, a: Id, b: Id)
    requires Precedes(m, a, b)
    ensures Has(m, a)
  {
    HasAt(m, a);
  }

  lemma UpAtEnd(h: History, i: nat, request: Id)
    requires UpFrom(h, i, request)
    ensures Has(Run(h).cards, request)
  {
    hide Run, Has;
    assert h[..|h|] == h;
  }

  lemma CardsDistinct(h: History)
    requires LegalRun(h)
    ensures Distinct(Run(h).cards)
  {
    hide Run, LegalRun, Trace, UpSince, Distinct, Get;
    var any: Card :| true;
    CardIsOpenIff(h, "", "", any);
  }

  /** A card is up since its step, and no other card has been up for longer. */
  ghost predicate LongestUp(h: History, request: Id, card: Card) {
    && (exists asker, i: nat :: UpSince(Trace(h), i, request, asker, card))
    && (forall other, i: nat :: UpFrom(h, i, other) ==> UpFrom(h, i, request))
  }

  ghost predicate AnyCardUp(t: seq<Effect>) {
    exists request, asker, card, i: nat :: UpSince(t, i, request, asker, card)
  }

  /** An open card blocks the program, and the one that has been up for longest says why; a busy stream
      keeps it working; else it rests as the last run or compaction to end left it. */
  ghost predicate ReportTells(h: History, r: Report) {
    var t := Trace(h);
    if AnyCardUp(t) then exists request, card :: LongestUp(h, request, card) && r == Blocked(card.title)
    else if Underway(t) then r == Report.Underway
    else LastOr(t, SetsResting(), Unstarted, r)
  }

  lemma FirstIsLongestUp(h: History)
    requires LegalRun(h) && Run(h).cards != []
    ensures LongestUp(h, Run(h).cards[0].0, Run(h).cards[0].1.card) && AnyCardUp(Trace(h))
  {
    hide Run, LegalRun, Trace, UpSince, UpFrom, Precedes, Distinct;
    var cards := Run(h).cards;
    var (request, open) := cards[0];
    CardIsOpenIff(h, request, open.stream, open.card);
    assert Get(cards, request) == Some(OpenCard(open.card, open.stream));
    forall other, i: nat | UpFrom(h, i, other)
      ensures UpFrom(h, i, request)
    {
      UpAtEnd(h, i, other);
      if other != request {
        HeadPrecedes(cards, other);
        CardsInOrder(h, request, other, i);
      }
    }
  }

  lemma HeadPrecedes(m: Assoc<Id, OpenCard>, k: Id)
    requires Has(m, k) && m[0].0 != k
    ensures Precedes(m, m[0].0, k)
  {
    HasAt(m, k);
  }

  lemma NoCardUp(h: History)
    requires LegalRun(h) && Run(h).cards == []
    ensures !AnyCardUp(Trace(h))
  {
    hide Run, LegalRun, Trace, UpSince, Distinct;
    if request, asker, card, i: nat :| UpSince(Trace(h), i, request, asker, card) {
      CardIsOpenIff(h, request, asker, card);
    }
  }

  /** The program status is what the run tells. */
  lemma ReportIsTold(h: History)
    requires LegalRun(h)
    ensures ReportTells(h, ReportOf(Run(h).cards, Run(h).streams, Run(h).resting))
  {
    hide Run, LegalRun, Trace, AnyCardUp, LongestUp, Underway, LastOr, Busier;
    if Run(h).cards != [] {
      FirstIsLongestUp(h);
    } else {
      NoCardUp(h);
      BusyIff(h);
      RestingIsTheLast(h);
    }
  }
}
