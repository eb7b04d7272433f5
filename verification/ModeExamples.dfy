/** Runs of the interactive mode that go against its own words: a frame that throws half-way, after a
    checkout the wire's contract rules out, and a card that outlives its run. */
module ModeExamples {
  import opened Wrappers
  import opened Assoc
  import opened Streams
  import opened Modes
  import opened ModeLaws
  import opened ModeRuns
  import Trees

  /** A mode whose only stream is the root, as `s`, with an empty list. */
  ghost predicate Alone(m: Mode, s: Stream) {
    && m.streams == [("root", s)] && s.id == "root" && s.parent.None? && !s.closed
    && m.visible == {} && m.root == Some("root")
  }

  function OnRoot(e: Event): Action {
    Arrives(Wire(Some("root"), e))
  }

  predicate IsSimple(e: Event) {
    e.CheckedOut? || e.MessageQueued? || e.UserMessage? || e.InteractionRequest? || e.RunFailed?
  }

  /** A frame on the only stream. */
  lemma RootFolds(m: Mode, s: Stream, e: Event) returns (n: Mode, t: Stream)
    requires Alone(m, s) && IsSimple(e)
    ensures n == Step(m, OnRoot(e), 0) && t == FoldStream(s, e, 0) && Alone(n, t)
    ensures Announces(m, OnRoot(e).frame) && (ChecksOut(m, OnRoot(e).frame) <==> ChecksOutKnown(s, e))
    ensures FrameThrows(m, OnRoot(e).frame) <==> Throws(s, e)
    ensures n.cards == CardsAfter(m.cards, e)
  {
    n, t := Step(m, OnRoot(e), 0), FoldStream(s, e, 0);
    hide FoldStream, Throws, Alone, CardsAfter;
    RootFoldsAt(m, s, e);
    RelistedAlone(FoldAt(m, "root", e, 0), t);
    TheRoot(m, s);
    hide FoldAt, Relisted, Get, Has;
  }

  lemma TheRoot(m: Mode, s: Stream)
    requires Alone(m, s)
    ensures Has(m.streams, "root") && Get(m.streams, "root") == Some(s) && m.root == Some("root") && !s.closed
  {
  }

  /** What becomes of the cards. */
  function CardsAfter(cards: Assoc<Id, OpenCard>, e: Event): Assoc<Id, OpenCard> {
    if e.InteractionRequest? && ParseCard(e.request, e.uiType, e.payload).Some?
    then Put(cards, e.request, OpenCard(ParseCard(e.request, e.uiType, e.payload).value, "root"))
    else cards
  }

  lemma RootFoldsAt(m: Mode, s: Stream, e: Event)
    requires Alone(m, s) && IsSimple(e)
    ensures var n := FoldAt(m, "root", e, 0);
      Alone(n, FoldStream(s, e, 0)) && n.cards == CardsAfter(m.cards, e)
  {
    var t := FoldStream(s, e, 0);
    StillTheRoot(s, e);
    hide FoldStream, ParseCard, Aside, CardsAfter;
    var streams: Assoc<Id, Stream> := [("root", t)];
    assert Put(m.streams, "root", t) == streams;
    AsideIsSimple(m.(streams := streams), s, e);
  }

  lemma AsideIsSimple(m: Mode, s: Stream, e: Event)
    requires IsSimple(e) && s.id == "root"
    ensures var n := Aside(m, s, e);
      && n.streams == m.streams && n.visible == m.visible && n.root == m.root && n.cards == CardsAfter(m.cards, e)
  {
    hide ParseCard, Put, FirstLine;
  }

  lemma RelistedAlone(m: Mode, t: Stream)
    requires Alone(m, t)
    ensures Alone(Relisted(m, 0), t) && Relisted(m, 0).cards == m.cards
  {
    assert m.streams[1..] == [];
    assert RowsOf(m.streams, m.cards) == [];
    hide RowsOf;
  }

  lemma StillTheRoot(s: Stream, e: Event)
    requires IsSimple(e) && !s.closed
    ensures var t := FoldStream(s, e, 0); t.id == s.id && t.parent == s.parent && t.closed == s.closed
  {
    FactsKept(s, e, 0);
    hide Throws, Grown, FoldFacts;
  }

  const LOST: History :=
    Then(Then(Then(BOOT, OnRoot(CheckedOut("x")), 0), OnRoot(MessageQueued(Pending("p", "hi"))), 0),
         OnRoot(UserMessage("p", "hi")), 0)

  /** A checkout of an entry never announced, and then a message: the tree throws, the message stays in
      the queue though its run is on, and the list and the program status are not told. */
  lemma UnseenCheckoutThrows()
    ensures var before := LOST[..3];
      && FrameThrows(Run(before), OnRoot(UserMessage("p", "hi")).frame)
      && Announces(Run(before), OnRoot(UserMessage("p", "hi")).frame)
      && Has(Run(LOST).streams, "root")
      && Get(Run(LOST).streams, "root").value.pending == [Pending("p", "hi")]
      && Get(Run(LOST).streams, "root").value.running
  {
    hide Run, LegalRun, Sane, Step;
    var m, s := Booted();
    var h1 := Then(BOOT, OnRoot(CheckedOut("x")), 0);
    var h2 := Then(h1, OnRoot(MessageQueued(Pending("p", "hi"))), 0);
    RunThen(BOOT, OnRoot(CheckedOut("x")), 0);
    RunThen(h1, OnRoot(MessageQueued(Pending("p", "hi"))), 0);
    RunThen(h2, OnRoot(UserMessage("p", "hi")), 0);
    var m1, s1 := RootFolds(m, s, CheckedOut("x"));
    var m2, s2 := RootFolds(m1, s1, MessageQueued(Pending("p", "hi")));
    var m3, s3 := RootFolds(m2, s2, UserMessage("p", "hi"));
    LostMessage(s);
    assert LOST[..3] == h2;
  }

  lemma LostMessage(s: Stream)
    requires s == Opened("root", None, None, "", "", false)
    ensures var s1 := FoldStream(s, CheckedOut("x"), 0);
      var s2 := FoldStream(s1, MessageQueued(Pending("p", "hi")), 0);
      var s3 := FoldStream(s2, UserMessage("p", "hi"), 0);
      Throws(s2, UserMessage("p", "hi")) && s3.pending == [Pending("p", "hi")] && s3.running
  {
    assert "x"[0] != "p"[0];
    CheckoutFolds(s, "x");
    var s1 := s.(tree := Trees.Checkout(s.tree, "x"));
    QueuedFolds(s1, Pending("p", "hi"));
    var s2 := s1.(pending := [Pending("p", "hi")]);
    assert s1.pending + [Pending("p", "hi")] == s2.pending;
    hide FoldStream;
    assert Throws(s2, UserMessage("p", "hi"));
    ThrownFolds(s2, "p", "hi");
  }

  lemma CheckoutFolds(s: Stream, entry: Id)
    ensures FoldStream(s, CheckedOut(entry), 0) == s.(tree := Trees.Checkout(s.tree, entry))
  {
    hide FoldFacts, Grown, Throws;
    CheckoutKeepsFacts(s, entry);
    CheckoutGrows(s, entry);
  }

  lemma CheckoutKeepsFacts(s: Stream, entry: Id)
    ensures FoldFacts(s, CheckedOut(entry), 0) == s
  {
  }

  lemma CheckoutGrows(s: Stream, entry: Id)
    ensures !Throws(s, CheckedOut(entry)) && Grown(s.tree, CheckedOut(entry)) == Trees.Checkout(s.tree, entry)
  {
    hide Trees.Checkout;
  }

  lemma QueuedFolds(s: Stream, p: Pending)
    ensures FoldStream(s, MessageQueued(p), 0) == s.(pending := s.pending + [p])
  {
    Treeless(s, MessageQueued(p), 0);
    hide FoldStream;
  }

  lemma ThrownFolds(s: Stream, entry: Id, text: string)
    requires Throws(s, UserMessage(entry, text)) && !s.replaying
    ensures var t := FoldStream(s, UserMessage(entry, text), 0); t.pending == s.pending && t.running
  {
    hide Throws, Grown;
  }

  const ASKED: Event :=
    InteractionRequest("ask", "native:select_one", Fields(None, None, [Some("yes")], false))

  const CARD := Card("ask", "native:select_one", "(untitled ask)", "", ["yes"], false)

  /** A run fails and the card its stream had put up is still open. */
  lemma FailedRunKeepsItsCard()
    ensures var h := Then(Then(BOOT, OnRoot(ASKED), 0), OnRoot(RunFailed("gone")), 0);
      LegalRun(h) && Get(Run(h).cards, "ask") == Some(OpenCard(CARD, "root"))
  {
    hide Run, LegalRun, Sane, Step;
    var m, s := Booted();
    var h1 := Then(BOOT, OnRoot(ASKED), 0);
    RunThen(BOOT, OnRoot(ASKED), 0);
    RunThen(h1, OnRoot(RunFailed("gone")), 0);
    var m1, s1 := RootFolds(m, s, ASKED);
    var m2, s2 := RootFolds(m1, s1, RunFailed("gone"));
    CardParses();
  }

  lemma CardParses()
    ensures ParseCard(ASKED.request, ASKED.uiType, ASKED.payload) == Some(CARD)
  {
    var options: seq<Option<string>> := [Some("yes")];
    assert options[1..] == [];
    assert Labels(options) == ["yes"];
  }
}
