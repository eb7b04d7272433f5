/** Whole runs of the interactive mode: each stream lives by its own events, each card is answered once
    and to the stream that asked. */
module ModeRuns {
  import opened Wrappers
  import opened Assoc
  import opened Streams
  import opened Modes
  import opened ModeLaws

  type History = seq<(Action, Clock)>

  ghost function Run(h: History): Mode {
    if h == [] then START
    else Step(Run(h[..|h| - 1]), h[|h| - 1].0, h[|h| - 1].1)
  }

  ghost predicate LegalRun(h: History) {
    h != [] ==> LegalRun(h[..|h| - 1]) && LegalStep(Run(h[..|h| - 1]), h[|h| - 1].0)
  }

  /** Every state of every run is sane. */
  lemma {:induction false} RunKeepsSane(h: History)
    requires LegalRun(h)
    ensures Sane(Run(h))
  {
    hide Step, LegalStep;
    if h != [] {
      RunKeepsSane(h[..|h| - 1]);
      hide Sane;
      StepKeepsSane(Run(h[..|h| - 1]), h[|h| - 1].0, h[|h| - 1].1);
    }
  }

  // ---- what each step did

  /** A stream registered; an event reached its stream; an answer went out; a notice of the backend's
      came or went. */
  datatype Effect =
    | Opens(announced: Stream)
    | Folds(stream: Id, event: Event, now: Clock)
    | Replies(request: Id, to: Id)
    | Posts(key: string, level: Level, text: string)
    | Clears(key: string)
    | Nothing

  function EffectOf(m: Mode, a: Action, now: Clock): Effect {
    match a
    case Arrives(Wire(stream, e)) =>
      if IsStartupFailure(m, a.frame) then Nothing
      else if e.SessionOpened? then
        Opens(Opened(e.id, e.parent, TitleFor(m, e.parent, e.parentCall), e.path, e.cwd, e.resumed))
      else if IsGlobal(e) then Nothing
      else if stream.None? && e.Noticed? then Posts(e.notice, e.level, e.text)
      else if stream.None? && e.NoticeCleared? then Clears(e.notice)
      else (match Target(m, stream, e)
            case None => Nothing
            case Some(id) => Folds(id, e, now))
    case Answers(request) =>
      if Has(m.cards, request) then Replies(request, Get(m.cards, request).value.stream) else Nothing
    case _ => Nothing
  }

  ghost function Trace(h: History): (t: seq<Effect>)
    ensures |t| == |h|
  {
    if h == [] then []
    else Trace(h[..|h| - 1]) + [EffectOf(Run(h[..|h| - 1]), h[|h| - 1].0, h[|h| - 1].1)]
  }

  // ---- each stream lives alone

  /** The value a step leaves in a registered stream, by what the step did. */
  ghost function After(x: Effect, before: Option<Stream>, id: Id): Option<Stream> {
    match x
    case Opens(s) => if s.id == id then Some(s) else before
    case Folds(stream, e, now) =>
      if stream == id && before.Some? then Some(FoldStream(before.value, e, now)) else before
    case _ => before
  }

  /** A stream's life by the record: its last announce, then its own events in order. */
  ghost function Life(t: seq<Effect>, id: Id): Option<Stream> {
    if t == [] then None else After(t[|t| - 1], Life(t[..|t| - 1], id), id)
  }

  /** `n` has no stream that `m` has not, changes none, and misses only closed ones. */
  ghost predicate OnlyDrops(m: Mode, n: Mode) {
    && (forall id {:trigger Has(n.streams, id)} :: Has(n.streams, id) ==> Get(n.streams, id) == Get(m.streams, id))
    && (forall id {:trigger Has(m.streams, id)} ::
          Has(m.streams, id) && !Get(m.streams, id).value.closed ==> Has(n.streams, id))
  }

  /** `got` is `want`, or nothing where `want` is closed. */
  predicate Left(got: Option<Stream>, want: Option<Stream>) {
    got == want || (got.None? && want.Some? && want.value.closed)
  }

  lemma SweepOnlyDrops(m: Mode)
    requires Tidy(m.streams)
    ensures OnlyDrops(m, Sweep(m))
  {
    forall id
      ensures Left(Get(Sweep(m).streams, id), Get(m.streams, id))
    {
      SweepDropsExactly(m.streams, m.focused, m.visible, id);
    }
    assert forall id :: Has(m.streams, id) ==> Left(Get(Sweep(m).streams, id), Get(m.streams, id));
    assert forall id :: Has(Sweep(m).streams, id) ==> Left(Get(Sweep(m).streams, id), Get(m.streams, id));
  }

  lemma RelistedOnlyDrops(m: Mode, now: Clock)
    requires Tidy(m.streams)
    ensures OnlyDrops(m, Relisted(m, now)) && OnlyDrops(m, Reprojected(m, now))
  {
    hide Sweep, Tidy, RowsOf, VisibleIn;
    var listed := RowsOf(m.streams, m.cards);
    SweepOnlyDrops(m.(visible := VisibleIn(m.rows, now)));
    SweepOnlyDrops(m.(rows := listed, visible := VisibleIn(listed, now)));
  }

  lemma FocusOnlyDrops(m: Mode, id: Id)
    requires Tidy(m.streams)
    ensures OnlyDrops(m, FocusOn(m, id))
  {
    hide Sweep, Tidy;
    SweepOnlyDrops(ShownStream(m, id));
  }

  lemma EscapeOnlyDrops(m: Mode)
    requires Tidy(m.streams)
    ensures OnlyDrops(m, Escaped(m))
  {
    hide FocusOn, EscapeTarget, Tidy;
    if FocusedStream(m).Some? {
      FocusOnlyDrops(m, EscapeTarget(m, FocusedStream(m).value));
    }
  }

  lemma AsideOnlyDrops(m: Mode, s: Stream, e: Event)
    requires Tidy(m.streams)
    ensures OnlyDrops(m, Aside(m, s, e))
  {
    hide Aside, Tidy, Sweep;
    AsideIs(m, s, e);
    SweepOnlyDrops(m);
  }

  /** An event changes its own stream as that stream alone folds it, and drops others at most. */
  lemma EventOnStream(m: Mode, id: Id, e: Event, now: Clock, other: Id)
    requires Tidy(m.streams) && Has(m.streams, id) && !Get(m.streams, id).value.closed
    requires ChecksOutKnown(Get(m.streams, id).value, e)
    ensures Left(Get(Relisted(FoldAt(m, id, e, now), now).streams, other),
                 if other == id then Some(FoldStream(Get(m.streams, id).value, e, now)) else Get(m.streams, other))
  {
    hide Tidy, Aside, Relisted, Put, Get, FoldStream, FoldFacts, Grown, AtRest;
    var s := Get(m.streams, id).value;
    var s1 := FoldStream(s, e, now);
    TidyGet(m.streams, id);
    FoldStreamKeeps(s, e, now);
    TidyPut(m.streams, s1);
    GetPut(m.streams, id, s1, other);
    var m1 := m.(streams := Put(m.streams, id, s1));
    AsideOnlyDrops(m1, s, e);
    TidyAside(m1, s, e);
    RelistedOnlyDrops(FoldAt(m, id, e, now), now);
    DropsLeave(m1, FoldAt(m, id, e, now), Relisted(FoldAt(m, id, e, now), now), other);
  }

  lemma DropsLeave(m: Mode, n: Mode, o: Mode, id: Id)
    requires OnlyDrops(m, n) && OnlyDrops(n, o)
    ensures Left(Get(o.streams, id), Get(m.streams, id))
  {
    hide Get;
    assert Has(m.streams, id) ==> Get(m.streams, id).value.closed || Has(n.streams, id);
    assert Has(n.streams, id) ==> Get(n.streams, id) == Get(m.streams, id);
    assert Has(o.streams, id) ==> Get(o.streams, id) == Get(n.streams, id);
  }

  lemma TidyAside(m: Mode, s: Stream, e: Event)
    requires Tidy(m.streams)
    ensures Tidy(Aside(m, s, e).streams)
  {
    hide Aside, Tidy;
    AsideIs(m, s, e);
    TidySwept(m.streams, m.focused, m.visible);
  }

  lemma AnnounceOnStream(m: Mode, s: Stream, now: Clock, other: Id, m1: Mode)
    requires Tidy(m.streams) && AtRest(s) && m1.streams == Put(m.streams, s.id, s)
    ensures Left(Get(Relisted(m1, now).streams, other), if other == s.id then Some(s) else Get(m.streams, other))
  {
    hide Tidy, Relisted, Put, Get;
    TidyPut(m.streams, s);
    RelistedOnlyDrops(m1, now);
    GetPut(m.streams, s.id, s, other);
    DropsLeave(m1, m1, Relisted(m1, now), other);
  }

  /** What one step does to a stream: only its own announce and its own events change it, and only a
      closed one can be dropped. */
  lemma StepOnStream(m: Mode, a: Action, now: Clock, id: Id)
    requires Sane(m) && LegalStep(m, a)
    ensures Left(Get(Step(m, a, now).streams, id), After(EffectOf(m, a, now), Get(m.streams, id), id))
  {
    hide Left, AtRest, ThrowsAt;
    LeftSame(Get(m.streams, id));
    hide Relisted, Reprojected, FocusOn, Escaped, FoldStream, Tidy, Put, Get, FoldAt, Announced, FoldGlobal,
         TitleFor, RowsTold, AllFresh, HeroTold, IsStartupFailure;
    match a
    case Arrives(f) =>
      if f.Wire? && !IsStartupFailure(m, f) {
        var e := f.event;
        if e.SessionOpened? {
          AnnouncedPuts(m, e);
          OpenedAtRest(e.id, e.parent, TitleFor(m, e.parent, e.parentCall), e.path, e.cwd, e.resumed);
          AnnounceOnStream(m, Opened(e.id, e.parent, TitleFor(m, e.parent, e.parentCall), e.path, e.cwd, e.resumed),
                           now, id,
                           Announced(m, e.id, e.parent, e.parentCall, e.path, e.cwd, e.resumed));
        } else if IsGlobal(e) {
          GlobalKeepsStreams(m, e);
        } else if !(f.stream.None? && IsNotice(e)) && Target(m, f.stream, e).Some? {
          NoHandlerThrows(m, Target(m, f.stream, e).value, e);
          EventOnStream(m, Target(m, f.stream, e).value, e, now, id);
        }
      }
    case Focuses(other) =>
      FocusOnlyDrops(m, other);
      DropsLeave(m, m, FocusOn(m, other), id);
    case PressesEscape =>
      EscapeOnlyDrops(m);
      DropsLeave(m, m, Escaped(m), id);
    case Answers(request) =>
      RelistedOnlyDrops(m.(cards := Delete(m.cards, request)), now);
      DropsLeave(m, m, Relisted(m.(cards := Delete(m.cards, request)), now), id);
    case ClockRings =>
      RelistedOnlyDrops(m, now);
      DropsLeave(m, m, Reprojected(m, now), id);
  }

  lemma LeftSame(got: Option<Stream>)
    ensures Left(got, got)
  {
  }

  lemma AnnouncedPuts(m: Mode, e: Event)
    requires e.SessionOpened?
    ensures Announced(m, e.id, e.parent, e.parentCall, e.path, e.cwd, e.resumed).streams ==
            Put(m.streams, e.id, Opened(e.id, e.parent, TitleFor(m, e.parent, e.parentCall), e.path, e.cwd, e.resumed))
  {
  }

  lemma GlobalKeepsStreams(m: Mode, e: Event)
    ensures FoldGlobal(m, e).streams == m.streams
  {
  }

  lemma LeftAfter(x: Effect, id: Id, was: Option<Stream>, life: Option<Stream>, got: Option<Stream>)
    requires Left(was, life) && Left(got, After(x, was, id))
    ensures Left(got, After(x, life, id))
  {
    hide FoldStream;
    if x.Folds? && life.Some? {
      ClosedStays(life.value, x.event, x.now);
    }
  }

  lemma ClosedStays(s: Stream, e: Event, now: Clock)
    ensures s.closed ==> FoldStream(s, e, now).closed
  {
    hide Grown, Throws;
    FactsStayClosed(s, e, now);
    hide FoldFacts;
  }

  lemma FactsStayClosed(s: Stream, e: Event, now: Clock)
    ensures s.closed ==> FoldFacts(s, e, now).closed
  {
    hide Metered, Unqueued;
  }

  /** Every stream folds for itself: in any run, whatever the other streams, the focus, the answers and
      the sweeps did meanwhile, a stream is what its own announce and its own events make of it; only a
      closed one can be gone. */
  lemma {:induction false} StreamsLiveAlone(h: History, id: Id)
    requires LegalRun(h)
    ensures Left(Get(Run(h).streams, id), Life(Trace(h), id))
  {
    hide Step, EffectOf, LegalStep, Sane, After, Left;
    if h == [] {
      LeftSame(None);
    } else {
      var before := h[..|h| - 1];
      var (a, now) := h[|h| - 1];
      var x := EffectOf(Run(before), a, now);
      assert Trace(h) == Trace(before) + [x];
      assert Trace(h)[..|h| - 1] == Trace(before);
      RunKeepsSane(before);
      StepOnStream(Run(before), a, now, id);
      StreamsLiveAlone(before, id);
      LeftAfter(x, id, Get(Run(before).streams, id), Life(Trace(before), id), Get(Run(h).streams, id));
    }
  }

  // ---- cards

  /** `x` puts up a card for `request`, asked by `by_`. */
  predicate Asks(x: Effect, request: Id, asker: Id, card: Card) {
    && x.Folds? && x.stream == asker && x.event.InteractionRequest? && x.event.request == request
    && ParseCard(request, x.event.uiType, x.event.payload) == Some(card)
  }

  /** `x` takes `request`'s card down while `asker` is the one who asked: another answerable request of
      the same id, its settlement, its answer, or the end of the asker's run. */
  predicate Ends(x: Effect, request: Id, asker: Id) {
    || (x.Folds? && x.event.InteractionRequest? && x.event.request == request
        && ParseCard(request, x.event.uiType, x.event.payload).Some?)
    || (x.Folds? && x.event.InteractionSettled? && x.event.request == request)
    || (x.Replies? && x.request == request)
    || (x.Folds? && x.stream == asker && (x.event.RunFinished? || x.event.RunAborted?))
  }

  lemma {:induction false} WithoutStreamGet(cards: Assoc<Id, OpenCard>, stream: Id, request: Id)
    requires Distinct(cards)
    ensures Distinct(WithoutStream(cards, stream))
    ensures Get(WithoutStream(cards, stream), request) ==
            if Has(cards, request) && Get(cards, request).value.stream == stream then None else Get(cards, request)
  {
    if cards != [] {
      WithoutStreamGet(cards[1..], stream, request);
      WithoutStreamGet(cards[1..], stream, cards[0].0);
      var rest := WithoutStream(cards[1..], stream);
      assert ([cards[0]] + rest)[1..] == rest;
      assert WithoutStream(cards, stream) == if cards[0].1.stream == stream then rest else [cards[0]] + rest;
    }
  }

  /** The cards a step leaves, by what it did. */
  function CardsAfter(x: Effect, cards: Assoc<Id, OpenCard>): Assoc<Id, OpenCard> {
    match x
    case Replies(request, _) => Delete(cards, request)
    case Folds(stream, e, _) =>
      if e.RunFinished? || e.RunAborted? then WithoutStream(cards, stream)
      else if e.InteractionSettled? then Delete(cards, e.request)
      else if e.InteractionRequest? then
        (match ParseCard(e.request, e.uiType, e.payload)
         case None => cards
         case Some(card) => Put(cards, card.id, OpenCard(card, stream)))
      else cards
    case _ => cards
  }

  lemma AsideCards(m: Mode, s: Stream, e: Event, now: Clock)
    ensures Aside(m, s, e).cards == CardsAfter(Folds(s.id, e, now), m.cards)
  {
    hide ParseCard, WithoutStream, Delete, Put, NoticeKey, Aged, HeroOf;
  }

  lemma ListingKeepsCards(m: Mode, now: Clock, id: Id)
    ensures Relisted(m, now).cards == m.cards && Reprojected(m, now).cards == m.cards
    ensures FocusOn(m, id).cards == m.cards
  {
    hide RowsOf, VisibleIn, Swept;
  }

  lemma EscapeKeepsCards(m: Mode)
    ensures Escaped(m).cards == m.cards
  {
    hide FocusOn, EscapeTarget;
    if FocusedStream(m).Some? {
      ListingKeepsCards(m, 0, EscapeTarget(m, FocusedStream(m).value));
    }
  }

  lemma FrameKeepsCards(m: Mode, e: Event)
    ensures e.SessionOpened? ==> Announced(m, e.id, e.parent, e.parentCall, e.path, e.cwd, e.resumed).cards == m.cards
    ensures FoldGlobal(m, e).cards == m.cards
  {
    hide Put, HeroOf, TitleFor;
  }

  lemma StepCards(m: Mode, a: Action, now: Clock)
    requires Sane(m)
    ensures Step(m, a, now).cards == CardsAfter(EffectOf(m, a, now), m.cards)
  {
    hide Tidy, CardsAfter, Aside, Relisted, Reprojected, FocusOn, Escaped, Announced, FoldGlobal, Put,
         TitleFor, FoldStream, AllFresh, Anchored, HeroTold, RowsTold;
    CardsAfterElse(m.cards);
    match a
    case Arrives(f) =>
      if f.Wire? {
        var e := f.event;
        FrameKeepsCards(m, e);
        var id := Target(m, f.stream, e);
        if e.SessionOpened? {
          ListingKeepsCards(Announced(m, e.id, e.parent, e.parentCall, e.path, e.cwd, e.resumed), now, "");
        } else if id.Some? {
          var s := Get(m.streams, id.value).value;
          TidyGet(m.streams, id.value);
          AsideCards(m.(streams := Put(m.streams, id.value, FoldStream(s, e, now))), s, e, now);
          ListingKeepsCards(FoldAt(m, id.value, e, now), now, "");
        }
      }
    case Focuses(id) => ListingKeepsCards(m, now, id);
    case PressesEscape => EscapeKeepsCards(m);
    case Answers(request) => ListingKeepsCards(m.(cards := Delete(m.cards, request)), now, "");
    case ClockRings => ListingKeepsCards(m, now, "");
  }

  lemma CardsAfterElse(cards: Assoc<Id, OpenCard>)
    ensures CardsAfter(Nothing, cards) == cards
    ensures forall s :: CardsAfter(Opens(s), cards) == cards
    ensures forall request, to :: CardsAfter(Replies(request, to), cards) == Delete(cards, request)
    ensures forall key, level, text :: CardsAfter(Posts(key, level, text), cards) == cards
    ensures forall key :: CardsAfter(Clears(key), cards) == cards
  {
  }

  lemma CardsAfterIff(x: Effect, cards: Assoc<Id, OpenCard>, request: Id, asker: Id, card: Card)
    requires Distinct(cards)
    ensures Distinct(CardsAfter(x, cards))
    ensures Get(CardsAfter(x, cards), request) == Some(OpenCard(card, asker)) <==>
            || Asks(x, request, asker, card)
            || (Get(cards, request) == Some(OpenCard(card, asker)) && !Ends(x, request, asker))
  {
    match x
    case Replies(other, _) =>
      DeleteDistinct(cards, other);
      GetDelete(cards, other, request);
    case Folds(stream, e, _) =>
      if e.RunFinished? || e.RunAborted? {
        WithoutStreamGet(cards, stream, request);
      } else if e.InteractionSettled? {
        DeleteDistinct(cards, e.request);
        GetDelete(cards, e.request, request);
      } else if e.InteractionRequest? {
        var parsed := ParseCard(e.request, e.uiType, e.payload);
        if parsed.Some? {
          PutDistinct(cards, e.request, OpenCard(parsed.value, stream));
          GetPut(cards, e.request, OpenCard(parsed.value, stream), request);
        }
      }
    case _ =>
  }

  /** `i` put the card up and nothing since took it down. */
  ghost predicate UpSince(t: seq<Effect>, i: nat, request: Id, asker: Id, card: Card) {
    i < |t| && Asks(t[i], request, asker, card) && forall j :: i < j < |t| ==> !Ends(t[j], request, asker)
  }

  /** A card is open, for the stream that asked, exactly when some step put it up and none since took
      it down. A failed run takes no card down. */
  lemma {:induction false} CardIsOpenIff(h: History, request: Id, asker: Id, card: Card)
    requires LegalRun(h)
    ensures Distinct(Run(h).cards)
    ensures Get(Run(h).cards, request) == Some(OpenCard(card, asker)) <==>
            exists i: nat :: UpSince(Trace(h), i, request, asker, card)
  {
    hide Asks, Ends, Step, EffectOf, CardsAfter, LegalStep, Sane;
    if h != [] {
      var before := h[..|h| - 1];
      var (a, now) := h[|h| - 1];
      var x, t := EffectOf(Run(before), a, now), Trace(before);
      CardIsOpenIff(before, request, asker, card);
      RunKeepsSane(before);
      StepCards(Run(before), a, now);
      CardsAfterIff(x, Run(before).cards, request, asker, card);
      assert Trace(h) == t + [x];
      UpSinceStep(t, x, request, asker, card);
    }
  }

  lemma UpSinceStep(t: seq<Effect>, x: Effect, request: Id, asker: Id, card: Card)
    ensures (exists i: nat :: UpSince(t + [x], i, request, asker, card)) <==>
            || Asks(x, request, asker, card)
            || ((exists i: nat :: UpSince(t, i, request, asker, card)) && !Ends(x, request, asker))
  {
    hide Asks, Ends;
    var longer := t + [x];
    if Asks(x, request, asker, card) {
      assert UpSince(longer, |t|, request, asker, card);
    }
    if i: nat :| UpSince(t, i, request, asker, card) {
      if !Ends(x, request, asker) {
        assert UpSince(longer, i, request, asker, card);
      }
    }
    if i: nat :| UpSince(longer, i, request, asker, card) {
      if i < |t| {
        assert longer[|t|] == x;
        assert forall j :: i < j < |t| ==> longer[j] == t[j];
        assert UpSince(t, i, request, asker, card);
      }
    }
  }

  /** An answer that goes out answers a live request: it goes to the stream that last asked, which has
      neither finished nor aborted its run since, and nobody has answered or settled the request since. */
  lemma AnswersAreAwaited(h: History, k: nat)
    requires LegalRun(h) && k < |h| && Trace(h)[k].Replies?
    ensures exists i: nat, card :: UpSince(Trace(h)[..k], i, Trace(h)[k].request, Trace(h)[k].to, card)
  {
    hide Asks, Ends, Step, LegalStep, Run, LegalRun, Trace, UpSince, Get;
    PrefixOfRun(h, k);
    var x := Trace(h)[k];
    var card := Get(Run(h[..k]).cards, x.request).value.card;
    ReplyIsOpen(Run(h[..k]), h[k].0, h[k].1);
    CardIsOpenIff(h[..k], x.request, x.to, card);
    var i: nat :| UpSince(Trace(h[..k]), i, x.request, x.to, card);
  }

  lemma ReplyIsOpen(m: Mode, a: Action, now: Clock)
    ensures var x := EffectOf(m, a, now);
      x.Replies? ==> Has(m.cards, x.request) && Get(m.cards, x.request).value.stream == x.to
  {
  }

  lemma {:induction false} PrefixOfRun(h: History, k: nat)
    requires LegalRun(h) && k < |h|
    ensures LegalRun(h[..k]) && |Trace(h)| == |h| && Trace(h[..k]) == Trace(h)[..k]
    ensures Trace(h)[k] == EffectOf(Run(h[..k]), h[k].0, h[k].1)
    decreases |h|
  {
    hide Step, EffectOf, LegalStep;
    var before := h[..|h| - 1];
    if k < |h| - 1 {
      PrefixOfRun(before, k);
      assert before[..k] == h[..k];
      assert Trace(h)[..k] == Trace(before)[..k];
    } else {
      assert Trace(h)[..k] == Trace(before);
    }
  }

  /** No request is answered twice: between two answers to one id somebody asked it again. */
  lemma AnsweredOnce(h: History, j: nat, k: nat)
    requires LegalRun(h) && j < k < |h|
    requires Trace(h)[j].Replies? && Trace(h)[k].Replies? && Trace(h)[j].request == Trace(h)[k].request
    ensures exists i, card :: j < i < k && Asks(Trace(h)[i], Trace(h)[k].request, Trace(h)[k].to, card)
  {
    hide Run, Trace, LegalRun, Asks, UpSince;
    AnswersAreAwaited(h, k);
    var t := Trace(h);
    var i: nat, card :| UpSince(t[..k], i, t[k].request, t[k].to, card);
    AskedAfter(t, j, k, i, card);
  }

  lemma AskedAfter(t: seq<Effect>, j: nat, k: nat, i: nat, card: Card)
    requires j < k < |t| && t[j].Replies? && t[k].Replies? && t[j].request == t[k].request
    requires UpSince(t[..k], i, t[k].request, t[k].to, card)
    ensures j < i < k && Asks(t[i], t[k].request, t[k].to, card)
  {
    hide Asks, Ends;
    AnswerEnds(t[j], t[k].request, t[k].to, card);
    assert t[..k][j] == t[j];
  }

  lemma AnswerEnds(x: Effect, request: Id, asker: Id, card: Card)
    requires x.Replies? && x.request == request
    ensures Ends(x, request, asker) && !Asks(x, request, asker, card)
  {
  }

  // ---- notices

  /** `x` commits a live turn: a replay pass commits history, which does not count. */
  predicate CommitsLive(m: Mode, x: Effect) {
    x.Folds? && x.event.TurnCommitted? && Has(m.streams, x.stream) && !Get(m.streams, x.stream).value.replaying
  }

  /** How many turns the run committed live. */
  ghost function LiveCommits(h: History): nat {
    if h == [] then 0
    else
      var m := Run(h[..|h| - 1]);
      LiveCommits(h[..|h| - 1]) + if CommitsLive(m, EffectOf(m, h[|h| - 1].0, h[|h| - 1].1)) then 1 else 0
  }

  predicate PostsTo(x: Effect, key: string, level: Level, text: string) {
    || x == Posts(key, level, text)
    || (x.Folds? && x.event.Noticed? && NoticeKey(x.stream, x.event.notice) == key
        && x.event.level == level && x.event.text == text)
  }

  /** `x` sets or clears the notice under `key`. */
  predicate Touches(x: Effect, key: string) {
    || (x.Posts? && x.key == key) || (x.Clears? && x.key == key)
    || (x.Folds? && IsNotice(x.event) && NoticeKey(x.stream, x.event.notice) == key)
  }

  /** The notices and the turn clock a step leaves, by what it did. */
  function NoticesAfter(m: Mode, x: Effect): (Assoc<string, Notice>, nat) {
    if CommitsLive(m, x) then (Aged(m.notices, m.turns + 1), m.turns + 1)
    else
      (match x
       case Posts(key, level, text) => Put(m.notices, key, Notice(level, text, level == Severe, m.turns))
       case Clears(key) => Delete(m.notices, key)
       case Folds(stream, e, _) =>
         if e.Noticed? then
           Put(m.notices, NoticeKey(stream, e.notice), Notice(e.level, e.text, e.level == Severe, m.turns))
         else if e.NoticeCleared? then Delete(m.notices, NoticeKey(stream, e.notice))
         else m.notices
       case _ => m.notices,
       m.turns)
  }

  ghost predicate SameNotices(m: Mode, n: Mode) {
    n.notices == m.notices && n.turns == m.turns
  }

  lemma ListingKeepsNotices(m: Mode, now: Clock, id: Id)
    ensures SameNotices(m, Relisted(m, now)) && SameNotices(m, Reprojected(m, now)) && SameNotices(m, FocusOn(m, id))
  {
    hide RowsOf, VisibleIn, Swept;
  }

  lemma FrameKeepsNotices(m: Mode, e: Event)
    ensures e.SessionOpened? ==>
      SameNotices(m, Announced(m, e.id, e.parent, e.parentCall, e.path, e.cwd, e.resumed))
    ensures SameNotices(m, FoldGlobal(m, e))
  {
    hide Put, HeroOf, TitleFor;
  }

  lemma FoldAtNotices(m: Mode, id: Id, e: Event, now: Clock)
    requires Tidy(m.streams) && Has(m.streams, id)
    ensures (FoldAt(m, id, e, now).notices, FoldAt(m, id, e, now).turns) == NoticesAfter(m, Folds(id, e, now))
  {
    hide Put, Delete, Aged, NoticeKey, FoldStream, HeroOf, Swept, ParseCard, WithoutStream, FirstLine, Tidy;
    TidyGet(m.streams, id);
  }

  lemma StepNotices(m: Mode, a: Action, now: Clock)
    requires Sane(m)
    ensures (Step(m, a, now).notices, Step(m, a, now).turns) == NoticesAfter(m, EffectOf(m, a, now))
  {
    hide Tidy, Relisted, Reprojected, FocusOn, Announced, FoldGlobal, FoldAt, Put, Delete, TitleFor, Aged, NoticeKey,
         AllFresh, Anchored, HeroTold, RowsTold;
    match a
    case Arrives(f) =>
      if f.Wire? {
        var e := f.event;
        FrameKeepsNotices(m, e);
        var id := Target(m, f.stream, e);
        if e.SessionOpened? {
          ListingKeepsNotices(Announced(m, e.id, e.parent, e.parentCall, e.path, e.cwd, e.resumed), now, "");
        } else if id.Some? {
          FoldAtNotices(m, id.value, e, now);
          ListingKeepsNotices(FoldAt(m, id.value, e, now), now, "");
        }
      }
    case Focuses(id) => ListingKeepsNotices(m, now, id);
    case PressesEscape =>
      if FocusedStream(m).Some? {
        ListingKeepsNotices(m, now, EscapeTarget(m, FocusedStream(m).value));
      }
    case Answers(request) => ListingKeepsNotices(m.(cards := Delete(m.cards, request)), now, "");
    case ClockRings => ListingKeepsNotices(m, now, "");
  }

  lemma {:induction false} AgedGet(notices: Assoc<string, Notice>, turns: nat, key: string)
    requires Distinct(notices)
    ensures Distinct(Aged(notices, turns))
    ensures Get(Aged(notices, turns), key) ==
            if Has(notices, key) && Expired(Get(notices, key).value, turns) then None else Get(notices, key)
  {
    hide Expired;
    if notices != [] {
      AgedGet(notices[1..], turns, key);
      AgedGet(notices[1..], turns, notices[0].0);
      var rest := Aged(notices[1..], turns);
      assert ([notices[0]] + rest)[1..] == rest;
      assert Aged(notices, turns) == if Expired(notices[0].1, turns) then rest else [notices[0]] + rest;
    }
  }

  lemma NoticesAfterIff(m: Mode, x: Effect, key: string, level: Level, text: string, born: nat)
    requires Distinct(m.notices)
    ensures Distinct(NoticesAfter(m, x).0)
    ensures var n := Notice(level, text, level == Severe, born);
      Get(NoticesAfter(m, x).0, key) == Some(n) <==>
        || (PostsTo(x, key, level, text) && born == m.turns)
        || (!Touches(x, key) && Get(m.notices, key) == Some(n) && !(CommitsLive(m, x) && Expired(n, m.turns + 1)))
  {
    hide NoticeKey, Aged;
    AgedGet(m.notices, m.turns + 1, key);
    if x.Posts? {
      PutDistinct(m.notices, x.key, Notice(x.level, x.text, x.level == Severe, m.turns));
      GetPut(m.notices, x.key, Notice(x.level, x.text, x.level == Severe, m.turns), key);
    } else if x.Clears? {
      DeleteDistinct(m.notices, x.key);
      GetDelete(m.notices, x.key, key);
    } else if x.Folds? && x.event.Noticed? {
      var k := NoticeKey(x.stream, x.event.notice);
      var n := Notice(x.event.level, x.event.text, x.event.level == Severe, m.turns);
      PutDistinct(m.notices, k, n);
      GetPut(m.notices, k, n, key);
    } else if x.Folds? && x.event.NoticeCleared? {
      DeleteDistinct(m.notices, NoticeKey(x.stream, x.event.notice));
      GetDelete(m.notices, NoticeKey(x.stream, x.event.notice), key);
    }
  }

  /** Step `i` posted the notice, nothing since set or cleared its key, and, short of an error, fewer
      than two turns were committed live since. */
  ghost predicate PostedSince(h: History, i: nat, key: string, level: Level, text: string, born: nat) {
    && i < |h| && PostsTo(Trace(h)[i], key, level, text)
    && (forall j :: i < j < |h| ==> !Touches(Trace(h)[j], key))
    && born == LiveCommits(h[..i])
    && (level == Severe || LiveCommits(h) - born < 2)
  }

  /** A notice is live exactly when it was posted, its key was not set or cleared since, and it is an
      error or fewer than two turns were committed live since. */
  lemma {:induction false} NoticeIsLiveIff(h: History, key: string, level: Level, text: string, born: nat)
    requires LegalRun(h)
    ensures Distinct(Run(h).notices) && Run(h).turns == LiveCommits(h)
    ensures Get(Run(h).notices, key) == Some(Notice(level, text, level == Severe, born)) <==>
            exists i: nat :: PostedSince(h, i, key, level, text, born)
  {
    hide Step, EffectOf, LegalStep, Sane, NoticesAfter, PostsTo, Touches, CommitsLive, PostedSince;
    if h == [] {
      NothingPosted(key, level, text, born);
    } else {
      var before := h[..|h| - 1];
      var (a, now) := h[|h| - 1];
      var m := Run(before);
      var x := EffectOf(m, a, now);
      NoticeIsLiveIff(before, key, level, text, born);
      RunKeepsSane(before);
      StepNotices(m, a, now);
      NoticesAfterIff(m, x, key, level, text, born);
      TurnsAfter(m, x);
      PostedSinceStep(h, key, level, text, born);
    }
  }

  lemma NothingPosted(key: string, level: Level, text: string, born: nat)
    ensures !exists i: nat :: PostedSince([], i, key, level, text, born)
    ensures Get(START.notices, key) == None
  {
  }

  lemma TurnsAfter(m: Mode, x: Effect)
    ensures NoticesAfter(m, x).1 == m.turns + if CommitsLive(m, x) then 1 else 0
  {
    hide Aged, NoticeKey;
  }

  lemma PostedSinceStep(h: History, key: string, level: Level, text: string, born: nat)
    requires h != []
    ensures var before := h[..|h| - 1]; var m := Run(before);
      var x := EffectOf(m, h[|h| - 1].0, h[|h| - 1].1);
      (exists i: nat :: PostedSince(h, i, key, level, text, born)) <==>
        || (PostsTo(x, key, level, text) && born == LiveCommits(before))
        || (!Touches(x, key) && (exists i: nat :: PostedSince(before, i, key, level, text, born))
            && !(CommitsLive(m, x) && level != Severe && LiveCommits(before) + 1 - born >= 2))
  {
    hide Run, EffectOf, Step, PostsTo, Touches, CommitsLive;
    var n := |h| - 1;
    var before := h[..n];
    var m := Run(before);
    var x := EffectOf(m, h[n].0, h[n].1);
    assert Trace(h) == Trace(before) + [x];
    if PostsTo(x, key, level, text) && born == LiveCommits(before) {
      PostIsNoCommit(m, x, key, level, text);
      assert PostedSince(h, n, key, level, text, born);
    }
    if i: nat :| PostedSince(before, i, key, level, text, born) {
      assert before[..i] == h[..i];
      if !Touches(x, key) && (level == Severe || LiveCommits(h) - born < 2) {
        assert PostedSince(h, i, key, level, text, born);
      }
    }
    if i: nat :| PostedSince(h, i, key, level, text, born) {
      if i < n {
        assert before[..i] == h[..i];
        assert Trace(h)[n] == x && !Touches(x, key);
        assert forall j :: i < j < n ==> Trace(h)[j] == Trace(before)[j];
        assert PostedSince(before, i, key, level, text, born);
      } else {
        assert h[..i] == before;
      }
    }
  }

  lemma PostIsNoCommit(m: Mode, x: Effect, key: string, level: Level, text: string)
    requires PostsTo(x, key, level, text)
    ensures !CommitsLive(m, x) && Touches(x, key)
  {
  }

  // ---- four promises that fail

  function Then(h: History, a: Action, now: Clock): History {
    h + [(a, now)]
  }

  lemma RunThen(h: History, a: Action, now: Clock)
    ensures Run(Then(h, a, now)) == Step(Run(h), a, now)
    ensures LegalRun(Then(h, a, now)) <==> LegalRun(h) && LegalStep(Run(h), a)
  {
    hide Step, LegalStep;
    assert Then(h, a, now)[..|h|] == h;
  }

  function OpensStream(id: Id, parent: Option<Id>): Action {
    Arrives(Wire(Some(id), SessionOpened(id, parent, None, "", "", false)))
  }

  const BOOT: History := [(OpensStream("root", None), 0)]

  /** The mode after a fresh boot. */
  lemma Booted() returns (m: Mode, s: Stream)
    ensures LegalRun(BOOT) && Run(BOOT) == m && Sane(m)
    ensures s == Opened("root", None, None, "", "", false) && m.streams == [("root", s)]
    ensures m.root == Some("root") && m.focused == m.root && m.home == m.root && m.visible == {} && m.cards == []
    ensures m.heroActive && m.hero.Some? && m.hero.value.modelCounts == []
  {
    hide Run, LegalRun, Sane;
    var a := OpensStream("root", None);
    assert Then([], a, 0) == BOOT;
    NothingRuns();
    RunThen([], a, 0);
    m := Run(BOOT);
    s := Opened("root", None, None, "", "", false);
    BootStep(s);
    RunKeepsSane(BOOT);
  }

  lemma NothingRuns()
    ensures LegalRun([]) && Run([]) == START
  {
  }

  lemma BootStep(s: Stream)
    requires s == Opened("root", None, None, "", "", false)
    ensures var a := OpensStream("root", None); var m := Step(START, a, 0);
      && LegalStep(START, a) && m.streams == [("root", s)]
      && m.root == Some("root") && m.focused == m.root && m.home == m.root && m.visible == {} && m.cards == []
      && m.heroActive && m.hero.Some? && m.hero.value.modelCounts == []
  {
    var streams: Assoc<Id, Stream> := [("root", s)];
    assert streams[1..] == [];
    assert RowsOf(streams, []) == [];
    assert Put(START.streams, "root", s) == streams;
    assert Has(streams, "root");
  }

  // ---- the hero and the home of unaddressed notes

  /** Entry `i` of the record is the last announce in it. */
  ghost predicate LastAnnounce(t: seq<Effect>, i: nat) {
    i < |t| && t[i].Opens? && forall j :: i < j < |t| ==> !t[j].Opens?
  }

  predicate FreshRoot(x: Effect) {
    x.Opens? && x.announced.parent.None? && !x.announced.resumed
  }

  lemma OpensIsAnnounce(m: Mode, a: Action, now: Clock)
    ensures EffectOf(m, a, now).Opens? <==> IsAnnounce(a)
    ensures IsAnnounce(a) ==>
      (FreshRoot(EffectOf(m, a, now)) <==> a.frame.event.parent.None? && !a.frame.event.resumed)
  {
    hide Target, TitleFor, Has, Get;
  }

  /** The landing page is up exactly when the last announce was a fresh root's. */
  lemma {:induction false} HeroIsUpIff(h: History)
    ensures Run(h).heroActive <==> exists i: nat :: LastAnnounce(Trace(h), i) && FreshRoot(Trace(h)[i])
  {
    hide Step, EffectOf, FreshRoot;
    if h != [] {
      var n := |h| - 1;
      var before, m, a := h[..n], Run(h[..n]), h[n].0;
      var x := EffectOf(m, a, h[n].1);
      HeroIsUpIff(before);
      OpensIsAnnounce(m, a, h[n].1);
      StepKeepsNames(m, a, h[n].1);
      LastAnnounceStep(Trace(before), x);
      assert Trace(h) == Trace(before) + [x];
      assert Run(h) == Step(m, a, h[n].1);
    }
  }

  lemma LastAnnounceStep(t: seq<Effect>, x: Effect)
    ensures (exists i: nat :: LastAnnounce(t + [x], i) && FreshRoot((t + [x])[i])) <==>
            if x.Opens? then FreshRoot(x) else exists i: nat :: LastAnnounce(t, i) && FreshRoot(t[i])
  {
    hide FreshRoot;
    var more := t + [x];
    if x.Opens? {
      assert LastAnnounce(more, |t|);
      assert forall i: nat :: LastAnnounce(more, i) ==> i == |t|;
    } else {
      assert forall i :: 0 <= i < |t| ==> more[i] == t[i];
      forall i: nat
        ensures LastAnnounce(more, i) <==> LastAnnounce(t, i)
      {
        assert i < |t| && LastAnnounce(more, i) ==> forall j :: i < j < |t| ==> !more[j].Opens?;
      }
    }
  }

  /** While it is up it states the current facts. */
  lemma HeroIsCurrent(h: History)
    requires LegalRun(h) && Run(h).heroActive
    ensures var m := Run(h);
      m.root.Some? && Has(m.streams, m.root.value) && m.hero == Some(HeroOf(m, Get(m.streams, m.root.value).value))
  {
    hide Run, LegalRun;
    RunKeepsSane(h);
  }

  /** And once it is down it stays as it was last shown. */
  lemma {:induction false} HeroStaysAsShown(h: History, k: nat)
    requires k <= |h| && forall j :: k < j <= |h| ==> !Run(h[..j]).heroActive
    ensures Run(h).hero == Run(h[..k]).hero
  {
    hide Step;
    if k == |h| {
      assert h[..k] == h;
    } else {
      var n := |h| - 1;
      var before := h[..n];
      assert before[..k] == h[..k] && forall j :: 0 <= j <= n ==> before[..j] == h[..j];
      HeroStaysAsShown(before, k);
      assert h[..|h|] == h;
      StepKeepsNames(Run(before), h[n].0, h[n].1);
    }
  }

  /** Notes that name no stream go to the first stream that was ever shown: to the root's pane exactly
      when the root was that one. */
  lemma {:induction false} HomeIsFirstShown(h: History, k: nat)
    requires LegalRun(h) && k < |h| && Run(h[..k]).focused.None? && Run(h[..k + 1]).focused.Some?
    ensures Run(h).home == Run(h[..k + 1]).focused
    ensures Run(h).home == Run(h).root <==> Run(h[..k + 1]).focused == Run(h).root
  {
    hide Step, LegalStep, Sane;
    var n := |h| - 1;
    var before := h[..n];
    StepKeepsNames(Run(before), h[n].0, h[n].1);
    if k == n {
      assert h[..n + 1] == h;
      HomeWithFocus(before);
    } else {
      assert before[..k] == h[..k] && before[..k + 1] == h[..k + 1];
      HomeIsFirstShown(before, k);
    }
  }

  lemma HomeWithFocus(h: History)
    requires LegalRun(h)
    ensures Run(h).home.Some? <==> Run(h).focused.Some?
  {
    hide Run, LegalRun, Tidy, AllFresh, HeroTold, RowsTold;
    RunKeepsSane(h);
  }

  /** After a second root's announce, notes that name no stream still land in the first root's pane. */
  lemma NotesMissTheNewRoot()
    ensures var h := Then(BOOT, OpensStream("other", None), 0);
            LegalRun(h) && Run(h).root == Some("other") && Run(h).home == Some("root")
  {
    hide Run, LegalRun, Step;
    var m, s := Booted();
    var a := OpensStream("other", None);
    RunThen(BOOT, a, 0);
    StepKeepsNames(m, a, 0);
  }

  /** A subagent's announce freezes the landing page: models announced after it never reach the hero,
      fresh as the root is. */
  lemma HeroFreezes()
    ensures var h := Then(Then(BOOT, OpensStream("child", Some("root")), 0),
                          Arrives(Wire(None, ModelsAvailable([5]))), 0);
            LegalRun(h) && Run(h).modelCounts == [5] && Run(h).hero.Some? && Run(h).hero.value.modelCounts == []
  {
    hide Run, LegalRun, Sane, Step, LegalStep;
    var m, s := Booted();
    var opens := OpensStream("child", Some("root"));
    var models := Arrives(Wire(None, ModelsAvailable([5])));
    RunThen(BOOT, opens, 0);
    RunThen(Then(BOOT, opens, 0), models, 0);
    assert !Has(m.streams[1..], "child");
    ChildFreezes(m, "child", "root");
    ModelsArrive(Step(m, opens, 0), [5]);
  }

  lemma ChildFreezes(m: Mode, id: Id, parent: Id)
    requires !Has(m.streams, id)
    ensures var a := OpensStream(id, Some(parent));
            LegalStep(m, a) && !Step(m, a, 0).heroActive && Step(m, a, 0).hero == m.hero
  {
    hide Step;
    StepKeepsNames(m, OpensStream(id, Some(parent)), 0);
  }

  lemma ModelsArrive(m: Mode, counts: seq<nat>)
    requires !m.heroActive
    ensures var a := Arrives(Wire(None, ModelsAvailable(counts)));
            LegalStep(m, a) && Step(m, a, 0).modelCounts == counts && Step(m, a, 0).hero == m.hero
  {
  }

  /** A live stream is where its own events put it. */
  lemma StaysLive(m: Mode, a: Action, now: Clock, id: Id, s: Stream)
    requires Sane(m) && NoLeak(m) && LegalStep(m, a) && !IsRootAnnounce(m, a)
    requires After(EffectOf(m, a, now), Get(m.streams, id), id) == Some(s) && !s.closed
    ensures Get(Step(m, a, now).streams, id) == Some(s)
    ensures Sane(Step(m, a, now)) && NoLeak(Step(m, a, now))
  {
    hide Sane, NoLeak, LegalStep, EffectOf, Step, After;
    StepOnStream(m, a, now, id);
    StepKeepsSane(m, a, now);
  }

  /** Only a root's announce and the user move the focus. */
  lemma FocusStays(m: Mode, a: Action, now: Clock)
    requires (a.Arrives? && !IsRootAnnounce(m, a)) || a.Answers? || a.ClockRings?
    ensures Step(m, a, now).focused == m.focused
  {
    hide FoldWire, RowsOf, VisibleIn, Swept, IsStartupFailure;
    if a.Arrives? && a.frame.Wire? && !IsStartupFailure(m, a.frame) {
      FocusStaysOnWire(m, a.frame.stream, a.frame.event, now);
    }
  }

  lemma FocusStaysOnWire(m: Mode, stream: Option<Id>, e: Event, now: Clock)
    requires !(e.SessionOpened? && e.parent.None?)
    ensures FoldWire(m, stream, e, now).focused == m.focused
  {
    hide RowsOf, VisibleIn, Swept, Aside, Put, Delete, FoldStream, HeroOf, TitleFor;
    var id := Target(m, stream, e);
    if id.Some? {
      var s := Get(m.streams, id.value).value;
      AsideIs(m.(streams := Put(m.streams, id.value, FoldStream(s, e, now))), s, e);
    }
  }

  const CHILD := Opened("child", Some("root"), None, "", "", false)
  const GRANDCHILD := Opened("grandchild", Some("child"), None, "", "", false)

  const FAMILY: History :=
    Then(Then(BOOT, OpensStream("child", Some("root")), 0), OpensStream("grandchild", Some("child")), 0)

  lemma ChildOpens(m: Mode, id: Id, parent: Id, other: Id)
    requires Sane(m) && NoLeak(m) && !Has(m.streams, id) && m.root.Some?
    ensures var a := OpensStream(id, Some(parent)); var n := Step(m, a, 0);
      && LegalStep(m, a) && Sane(n) && NoLeak(n) && n.root == m.root && n.focused == m.focused
      && Get(n.streams, id) == Some(Opened(id, Some(parent), None, "", "", false))
      && (other != id ==> Left(Get(n.streams, other), Get(m.streams, other)))
  {
    hide Sane, NoLeak, Step;
    var a := OpensStream(id, Some(parent));
    StaysLive(m, a, 0, id, Opened(id, Some(parent), None, "", "", false));
    StepOnStream(m, a, 0, other);
    StepKeepsNames(m, a, 0);
    FocusStays(m, a, 0);
  }

  lemma BootHasNoLeak(m: Mode, root: Stream)
    requires m.streams == [("root", root)] && !root.closed
    ensures NoLeak(m)
  {
    assert m.streams[1..] == [];
  }

  lemma FamilyRun() returns (m: Mode)
    ensures LegalRun(FAMILY) && m == Run(FAMILY) && Sane(m) && NoLeak(m)
    ensures Get(m.streams, "child") == Some(CHILD) && Get(m.streams, "grandchild") == Some(GRANDCHILD)
    ensures m.root == Some("root") && m.focused == Some("root")
  {
    hide Run, LegalRun, Sane, Step, LegalStep;
    var boot, root := Booted();
    forall id
      ensures Get(boot.streams, id) == if id == "root" then Some(root) else None
    {
      assert boot.streams[1..] == [];
    }
    BootHasNoLeak(boot, root);
    hide NoLeak;
    var a, b := OpensStream("child", Some("root")), OpensStream("grandchild", Some("child"));
    RunThen(BOOT, a, 0);
    RunThen(Then(BOOT, a, 0), b, 0);
    ChildOpens(boot, "child", "root", "grandchild");
    var n := Step(boot, a, 0);
    ChildOpens(n, "grandchild", "child", "child");
    m := Step(n, b, 0);
  }

  /** While the user watches a grandchild, its parent closes, and a minute later its row hides. */
  const ORPHANED: History :=
    Then(Then(Then(FAMILY, Focuses("grandchild"), 0),
              Arrives(Wire(Some("child"), SessionClosed("child"))), 0), ClockRings, IDLE_HIDE)

  /** Esc does not always walk to the parent: once the parent was swept, it does nothing. */
  lemma EscapeCanBeStuck()
    ensures LegalRun(ORPHANED)
    ensures var m := Run(ORPHANED);
      && m.focused == Some("grandchild") && m.root == Some("root") && Escaped(m) == m
  {
    hide Run, LegalRun, Sane, NoLeak, Step, LegalStep;
    var m := FamilyRun();
    var focus, close := Focuses("grandchild"), Arrives(Wire(Some("child"), SessionClosed("child")));
    var h := Then(FAMILY, focus, 0);
    RunThen(FAMILY, focus, 0);
    RunThen(h, close, 0);
    RunThen(Then(h, close, 0), ClockRings, IDLE_HIDE);
    var n := WatchesGrandchild(m);
    var o := ChildCloses(n);
    RowHides(o);
  }

  lemma WatchesGrandchild(m: Mode) returns (n: Mode)
    requires Sane(m) && NoLeak(m) && m.root == Some("root") && m.focused == Some("root")
    requires Get(m.streams, "child") == Some(CHILD) && Get(m.streams, "grandchild") == Some(GRANDCHILD)
    ensures LegalStep(m, Focuses("grandchild")) && n == Step(m, Focuses("grandchild"), 0) && Sane(n) && NoLeak(n)
    ensures n.root == Some("root") && n.focused == Some("grandchild")
    ensures Get(n.streams, "child") == Some(CHILD) && Get(n.streams, "grandchild") == Some(GRANDCHILD)
  {
    hide Sane, NoLeak, Swept;
    var a := Focuses("grandchild");
    n := Step(m, a, 0);
    StaysLive(m, a, 0, "child", CHILD);
    StaysLive(m, a, 0, "grandchild", GRANDCHILD);
  }

  lemma ChildCloses(n: Mode) returns (o: Mode)
    requires Sane(n) && NoLeak(n) && n.root == Some("root") && n.focused == Some("grandchild")
    requires Get(n.streams, "child") == Some(CHILD) && Get(n.streams, "grandchild") == Some(GRANDCHILD)
    ensures var a := Arrives(Wire(Some("child"), SessionClosed("child"))); LegalStep(n, a) && o == Step(n, a, 0)
    ensures Sane(o) && NoLeak(o) && o.root == Some("root") && o.focused == Some("grandchild")
    ensures Get(o.streams, "grandchild") == Some(GRANDCHILD)
    ensures Left(Get(o.streams, "child"), Some(FoldStream(CHILD, SessionClosed("child"), 0)))
  {
    hide Sane, NoLeak, Step;
    var a := Arrives(Wire(Some("child"), SessionClosed("child")));
    o := Step(n, a, 0);
    StaysLive(n, a, 0, "grandchild", GRANDCHILD);
    StepOnStream(n, a, 0, "child");
    StepKeepsNames(n, a, 0);
    FocusStays(n, a, 0);
  }

  lemma RowHides(o: Mode)
    requires Sane(o) && NoLeak(o) && o.root == Some("root") && o.focused == Some("grandchild")
    requires Get(o.streams, "grandchild") == Some(GRANDCHILD)
    requires Left(Get(o.streams, "child"), Some(FoldStream(CHILD, SessionClosed("child"), 0)))
    ensures LegalStep(o, ClockRings)
    ensures var p := Step(o, ClockRings, IDLE_HIDE);
            p.root == Some("root") && p.focused == Some("grandchild") && Escaped(p) == p
  {
    hide Sane, NoLeak, Reprojected;
    var p := Step(o, ClockRings, IDLE_HIDE);
    StaysLive(o, ClockRings, IDLE_HIDE, "grandchild", GRANDCHILD);
    StepKeepsNames(o, ClockRings, IDLE_HIDE);
    FocusStays(o, ClockRings, IDLE_HIDE);
    if Has(o.streams, "child") {
      ClosedChildGoes(o, "child", IDLE_HIDE);
    } else {
      StepOnStream(o, ClockRings, IDLE_HIDE, "child");
    }
    assert !Has(p.streams, "child");
    EscapeWalksIff(p);
  }

  // ---- a stranded stream

  const CLOSED_CHILD := CHILD.(closed := true, terminal := Some(Closed))

  /** Two streams, `child` in the given state, focused or not, with the given rows showing. */
  ghost predicate Scene(m: Mode, root: Stream, child: Stream, focused: Id, rows: seq<Row>, visible: set<Id>) {
    && m.streams == [("root", root), ("child", child)] && m.focused == Some(focused) && m.root == Some("root")
    && m.cards == [] && m.rows == rows && m.visible == visible
    && root == Opened("root", None, None, "", "", false)
    && Sane(m) && NoLeak(m)
  }

  lemma ChildRow(root: Stream, child: Stream, now: Clock)
    requires root.parent.None? && child.parent.Some?
    ensures var row := RowOf(child, []);
      && RowsOf([("root", root), ("child", child)], []) == [row]
      && VisibleIn([row], now) == if Shows(row, now) then {row.stream} else {}
  {
    var both: Assoc<Id, Stream> := [("root", root), ("child", child)];
    var one: Assoc<Id, Stream> := [("child", child)];
    var row := RowOf(child, []);
    assert both[1..] == one && one[1..] == [];
    assert RowsOf(one, []) == [row];
    assert row in [row];
    assert forall r | r in [row] :: r == row;
  }

  lemma BothStay(root: Stream, child: Stream, focused: Option<Id>, visible: set<Id>)
    requires !root.closed && !Unreachable(child, focused, visible)
    ensures Swept([("root", root), ("child", child)], focused, visible) == [("root", root), ("child", child)]
    ensures Get([("root", root), ("child", child)], "child") == Some(child)
    ensures forall other ::
      Put([("root", root), ("child", child)], "child", other) == [("root", root), ("child", other)]
  {
    hide Unreachable;
    var both: Assoc<Id, Stream> := [("root", root), ("child", child)];
    var one: Assoc<Id, Stream> := [("child", child)];
    assert both[1..] == one && one[1..] == [];
    assert Swept(one, focused, visible) == one;
    assert !Unreachable(root, focused, visible) by {
      OpenIsReachable(root, focused, visible);
    }
  }

  lemma OpenIsReachable(s: Stream, focused: Option<Id>, visible: set<Id>)
    requires !s.closed
    ensures !Unreachable(s, focused, visible)
  {
  }

  lemma ChildArrives() returns (m: Mode, root: Stream)
    ensures var h := Then(BOOT, OpensStream("child", Some("root")), 0);
            LegalRun(h) && m == Run(h) && Scene(m, root, CHILD, "root", [RowOf(CHILD, [])], {"child"})
  {
    hide Run, LegalRun, Sane, NoLeak, Swept, VisibleIn, RowsOf;
    var boot, r := Booted();
    root := r;
    var a := OpensStream("child", Some("root"));
    RunThen(BOOT, a, 0);
    assert boot.streams[1..] == [];
    assert !Has(boot.streams[1..], "child");
    BootHasNoLeak(boot, root);
    ChildOpens(boot, "child", "root", "root");
    m := Step(boot, a, 0);
    ChildRow(root, CHILD, 0);
    assert Put(boot.streams, "child", CHILD) == [("root", root), ("child", CHILD)];
  }

  lemma ChildFocused(m: Mode, root: Stream) returns (n: Mode)
    requires Scene(m, root, CHILD, "root", [RowOf(CHILD, [])], {"child"})
    ensures LegalStep(m, Focuses("child")) && n == Step(m, Focuses("child"), 0)
    ensures Scene(n, root, CHILD, "child", [RowOf(CHILD, [])], {"child"})
  {
    hide Sane, NoLeak, Swept;
    n := Step(m, Focuses("child"), 0);
    BothStay(root, CHILD, Some("child"), {"child"});
    StepKeepsSane(m, Focuses("child"), 0);
  }

  lemma ChildShuts()
    ensures FoldStream(CHILD, SessionClosed("child"), 0) == CLOSED_CHILD && !Throws(CHILD, SessionClosed("child"))
  {
    Treeless(CHILD, SessionClosed("child"), 0);
    hide FoldStream;
  }

  lemma FocusedChildCloses(m: Mode, root: Stream) returns (n: Mode)
    requires Scene(m, root, CHILD, "child", [RowOf(CHILD, [])], {"child"})
    ensures var a := Arrives(Wire(Some("child"), SessionClosed("child")));
            LegalStep(m, a) && n == Step(m, a, 0)
            && Scene(n, root, CLOSED_CHILD, "child", [RowOf(CLOSED_CHILD, [])], {"child"})
  {
    ChildShuts();
    hide Sane, NoLeak, Swept, RowsOf, VisibleIn, FoldStream, Throws;
    var a := Arrives(Wire(Some("child"), SessionClosed("child")));
    BothStay(root, CHILD, Some("child"), {"child"});
    BothStay(root, CLOSED_CHILD, Some("child"), {"child"});
    ChildRow(root, CLOSED_CHILD, 0);
    StepKeepsSane(m, a, 0);
    n := Step(m, a, 0);
  }

  lemma ChildRowHides(m: Mode, root: Stream) returns (n: Mode)
    requires Scene(m, root, CLOSED_CHILD, "child", [RowOf(CLOSED_CHILD, [])], {"child"})
    ensures LegalStep(m, ClockRings) && n == Step(m, ClockRings, IDLE_HIDE)
    ensures Scene(n, root, CLOSED_CHILD, "child", [RowOf(CLOSED_CHILD, [])], {})
  {
    hide Sane, NoLeak, Swept, RowsOf, VisibleIn;
    BothStay(root, CLOSED_CHILD, Some("child"), {});
    ChildRow(root, CLOSED_CHILD, IDLE_HIDE);
    StepKeepsSane(m, ClockRings, IDLE_HIDE);
    n := Step(m, ClockRings, IDLE_HIDE);
  }

  /** The user watches a child that closed over a minute ago when a new root is announced. */
  const STRANDED: History :=
    Then(Then(Then(Then(Then(BOOT, OpensStream("child", Some("root")), 0), Focuses("child"), 0),
                   Arrives(Wire(Some("child"), SessionClosed("child"))), 0), ClockRings, IDLE_HIDE),
         OpensStream("next", None), IDLE_HIDE)

  /** The focus leaves a closed child and no sweep runs: the child stays, unreachable. */
  lemma NewRootCanStrand()
    ensures LegalRun(STRANDED) && Sane(Run(STRANDED)) && !NoLeak(Run(STRANDED))
  {
    hide Run, LegalRun, Sane, NoLeak, Step, LegalStep;
    var m1, root := ChildArrives();
    var h1 := Then(BOOT, OpensStream("child", Some("root")), 0);
    var m2 := ChildFocused(m1, root);
    var h2 := Then(h1, Focuses("child"), 0);
    RunThen(h1, Focuses("child"), 0);
    var close := Arrives(Wire(Some("child"), SessionClosed("child")));
    var m3 := FocusedChildCloses(m2, root);
    var h3 := Then(h2, close, 0);
    RunThen(h2, close, 0);
    var m4 := ChildRowHides(m3, root);
    RunThen(h3, ClockRings, IDLE_HIDE);
    RunThen(Then(h3, ClockRings, IDLE_HIDE), OpensStream("next", None), IDLE_HIDE);
    NextRootStrands(m4, root);
  }

  lemma NextRootStrands(m: Mode, root: Stream)
    requires Scene(m, root, CLOSED_CHILD, "child", [RowOf(CLOSED_CHILD, [])], {})
    ensures var a := OpensStream("next", None);
            LegalStep(m, a) && Sane(Step(m, a, IDLE_HIDE)) && !NoLeak(Step(m, a, IDLE_HIDE))
  {
    hide Sane, NoLeak, Step, VisibleIn, RowsOf;
    BothStay(root, CLOSED_CHILD, Some("child"), {});
    NewRootStrandsIff(m, "next", None, "", "", false, IDLE_HIDE);
    StepKeepsSane(m, OpensStream("next", None), IDLE_HIDE);
  }
}
