/** What an entry of the session tree is from its announce on: its kind, where it hangs, what its row
    says, and, for a turn, the text that streams into it (`session-tree.ts`). */
module TreeEntries {
  import opened Wrappers
  import opened Sequences
  import opened Previews
  import opened Forests
  import opened Trees
  import opened TreeReplay

  // ---- what a row says

  ghost predicate AllSpace(text: string) {
    forall i :: 0 <= i < |text| ==> IsSpace(text[i])
  }

  /** `flat` is `text` with its line breaks and tabs read as spaces. */
  ghost predicate Flattened(text: string, flat: string) {
    && |flat| == |text|
    && forall i :: 0 <= i < |text| ==> flat[i] == if text[i] == '\n' || text[i] == '\t' then ' ' else text[i]
  }

  /** At most 200 characters, and an ellipsis where some were cut off. */
  ghost predicate Clipped(text: string, row: string) {
    if |text| <= 200 then row == text else |row| == 201 && row[..200] == text[..200] && row[200] == '\U{2026}'
  }

  /** The row's text is `text` on one line, without the space around it, clipped. */
  ghost predicate IsOneLineOf(row: string, text: string) {
    exists lead, core, trail ::
      && Flattened(text, lead + core + trail) && AllSpace(lead) && AllSpace(trail)
      && (core == "" || (!IsSpace(core[0]) && !IsSpace(core[|core| - 1])))
      && Clipped(core, row)
  }

  /** A turn's row keeps the space at its end, where more text may come. */
  ghost predicate IsTurnLineOf(row: string, text: string) {
    exists lead, core ::
      Flattened(text, lead + core) && AllSpace(lead) && (core == "" || !IsSpace(core[0])) && Clipped(core, row)
  }

  lemma {:induction false} TrimStartCuts(text: string)
    ensures AllSpace(text[..|text| - |TrimStart(text)|])
  {
    hide IsSpace;
    if text != [] && IsSpace(text[0]) {
      TrimStartCuts(text[1..]);
      var n := |text| - |TrimStart(text)|;
      assert TrimStart(text) == TrimStart(text[1..]);
      hide TrimStart;
      assert text[..n] == [text[0]] + text[1..][..n - 1];
    }
  }

  lemma {:induction false} TrimEndCuts(text: string)
    ensures AllSpace(text[|TrimEnd(text)|..])
  {
    hide IsSpace;
    if text != [] && IsSpace(text[|text| - 1]) {
      TrimEndCuts(text[..|text| - 1]);
      var rest := text[..|text| - 1][|TrimEnd(text[..|text| - 1])|..];
      var trail := text[|TrimEnd(text)|..];
      assert forall i :: 0 <= i < |trail| - 1 ==> trail[i] == rest[i];
    }
  }

  lemma TrimCuts(text: string) returns (lead: string, core: string, trail: string)
    ensures text == lead + core + trail && core == Trim(text) && AllSpace(lead) && AllSpace(trail)
    ensures core == "" || (!IsSpace(core[0]) && !IsSpace(core[|core| - 1]))
  {
    hide IsSpace;
    var rest := TrimStart(text);
    core := TrimEnd(rest);
    lead, trail := text[..|text| - |rest|], rest[|core|..];
    TrimStartCuts(text);
    TrimEndCuts(rest);
    hide TrimStart, TrimEnd, AllSpace;
    CutInThree(text, rest, core);
  }

  lemma CutInThree(text: string, rest: string, core: string)
    requires |rest| <= |text| && rest == text[|text| - |rest|..] && core <= rest
    ensures text == text[..|text| - |rest|] + core + rest[|core|..]
    ensures core != "" ==> core[0] == rest[0]
  {
  }

  lemma SingleLineIs(text: string)
    ensures IsOneLineOf(SingleLine(text), text)
  {
    var flat := Flatten(text);
    assert Flattened(text, flat);
    ClipIs();
    hide IsSpace, Trim, Flatten, AllSpace, Flattened, Clipped, Clip;
    var lead, core, trail := TrimCuts(flat);
    assert SingleLine(text) == Clip(core);
  }

  lemma TurnPreviewIs(text: string)
    ensures IsTurnLineOf(TurnPreview(text), text)
  {
    var flat := Flatten(text);
    assert Flattened(text, flat);
    ClipIs();
    TrimStartCuts(flat);
    var core := TrimStart(flat);
    assert core == "" || !IsSpace(core[0]);
    var lead := flat[..|flat| - |core|];
    assert TurnPreview(text) == Clip(core);
    hide IsSpace, TrimStart, Flatten, AllSpace, Flattened, Clipped, Clip, TurnPreview;
    assert flat == lead + core;
  }

  /** The row of a tool result: the announced name with up to three arguments, each on one line; the bare
      name where no arguments, or no call, were announced. */
  ghost predicate IsToolRow(row: string, call: Option<ToolCall>, name: string) {
    match call
    case None => row == name
    case Some(made) =>
      if made.args.None? || made.args.value == "" then row == made.name
      else match made.entries
        case None => exists cut :: Clipped(made.args.value, cut) && IsOneLineOf(row, made.name + " " + cut)
        case Some(entries) =>
          exists shown: seq<string> ::
            && |shown| == (if |entries| <= 3 then |entries| else 3)
            && (forall i :: 0 <= i < |shown| ==> IsArgument(shown[i], entries[i]))
            && IsOneLineOf(row, if shown == [] then made.name else made.name + " " + Join(shown, ", "))
  }

  ghost predicate IsArgument(shown: string, entry: (string, string)) {
    exists value :: IsOneLineOf(value, entry.1) && shown == entry.0 + ": " + value
  }

  lemma ClipIs()
    ensures forall text :: Clipped(text, Clip(text))
  {
  }

  lemma ToolLabelIs(call: Option<ToolCall>, name: string)
    ensures IsToolRow(ToolLabel(call, name), call, name)
  {
    hide SingleLine, IsOneLineOf, Clip, Join;
    ClipIs();
    if call.Some? && call.value.args.Some? && call.value.args.value != "" {
      var made := call.value;
      if made.entries.Some? {
        var entries := made.entries.value;
        var few := if |entries| > 3 then entries[..3] else entries;
        var shown := seq(|few|, i requires 0 <= i < |few| => few[i].0 + ": " + SingleLine(few[i].1));
        forall i | 0 <= i < |shown|
          ensures IsArgument(shown[i], entries[i])
        {
          SingleLineIs(entries[i].1);
        }
        SingleLineIs(if shown == [] then made.name else made.name + " " + Join(shown, ", "));
      } else {
        SingleLineIs(made.name + " " + Clip(made.args.value));
      }
    }
  }

  function Number(digits: string): int {
    if digits == "" then 0
    else Number(digits[..|digits| - 1]) * 10 + (digits[|digits| - 1] as int - '0' as int)
  }

  /** Digits only, and no zero ahead of others. */
  predicate IsNumeral(digits: string) {
    && digits != "" && (forall i :: 0 <= i < |digits| ==> '0' <= digits[i] <= '9')
    && (|digits| > 1 ==> digits[0] != '0')
  }

  lemma {:induction false} NumberOfDigits(n: nat)
    ensures Number(Digits(n)) == n && IsNumeral(Digits(n)) && (n > 0 ==> Digits(n)[0] != '0')
  {
    if n >= 10 {
      NumberOfDigits(n / 10);
      var last := Digits(n % 10);
      assert Digits(n)[..|Digits(n)| - 1] == Digits(n / 10);
      assert last == [('0' as int + n % 10) as char];
    } else {
      assert Digits(n)[..0] == "";
    }
  }

  /** The row of a compaction: its tokens in thousands, rounded half up. */
  ghost predicate IsCompactionRow(row: string, tokens: nat) {
    exists digits :: row == "[compaction: " + digits + "k tokens]" && IsNumeral(digits)
                     && 1000 * Number(digits) - 500 <= tokens < 1000 * Number(digits) + 500
  }

  lemma CompactionLabelIs(tokens: nat)
    ensures IsCompactionRow(CompactionLabel(tokens), tokens)
  {
    NumberOfDigits((tokens + 500) / 1000);
  }

  // ---- a new entry

  /** The row says what its step announced. */
  ghost predicate Labelled(t: Tree, step: Step, row: string) {
    match step
    case AddUser(_, text) => IsOneLineOf(row, text)
    case StartTurn(_) => row == ""
    case ToolResult(_, call, name) => IsToolRow(row, if call in t.calls then Some(t.calls[call]) else None, name)
    case AddCompaction(_, tokens) => IsCompactionRow(row, tokens)
    case _ => true
  }

  predicate OfKind(step: Step, kind: EntryKind) {
    && (step.AddUser? ==> kind == User) && (step.StartTurn? ==> kind == Turn)
    && (step.ToolResult? ==> kind == Tool) && (step.AddCompaction? ==> kind == Compaction)
  }

  /** `id` is new in `u`: the last child of what was the head, and the head now. Nothing else changed in
      the nodes. */
  ghost predicate NewlyEntered(t: Tree, u: Tree, id: Id) {
    && id !in t.nodes && u.nodes.Keys == t.nodes.Keys + {id} && u.head == Some(id)
    && u.nodes[id].parent == t.head && u.nodes[id].children == []
    && u.roots == (if t.head.None? then t.roots + [id] else t.roots)
    && (forall x :: x in t.nodes ==>
          u.nodes[x] == if t.head == Some(x) then t.nodes[x].(children := t.nodes[x].children + [id]) else t.nodes[x])
  }

  lemma EnterIs(t: Tree, id: Id, kind: EntryKind, preview: string)
    requires HeadKnown(t) && id !in t.nodes
    ensures Enter(t, id, kind, preview).Ok?
    ensures var u := Enter(t, id, kind, preview).value;
      && NewlyEntered(t, u, id) && u.nodes[id].kind == kind && u.nodes[id].preview == preview
      && u.openTurn == t.openTurn && u.calls == t.calls
  {
  }

  /** What a step that announces a new entry makes of the tree. */
  ghost predicate EntersAnew(t: Tree, u: Tree, step: Step, id: Id) {
    && NewlyEntered(t, u, id)
    && OfKind(step, u.nodes[id].kind) && Labelled(t, step, u.nodes[id].preview)
    && u.openTurn == (if step.StartTurn? then Some(id) else t.openTurn)
    && u.calls == (if step.ToolResult? then t.calls - {step.call} else t.calls)
  }

  lemma NewMessage(t: Tree, id: Id, text: string)
    requires HeadKnown(t) && id !in t.nodes
    ensures Enter(t, id, User, SingleLine(text)).Ok?
    ensures EntersAnew(t, Enter(t, id, User, SingleLine(text)).value, AddUser(id, text), id)
  {
    EnterIs(t, id, User, SingleLine(text));
    SingleLineIs(text);
    hide Enter, HeadKnown, NewlyEntered, SingleLine, IsOneLineOf;
  }

  lemma NewTurn(t: Tree, id: Id)
    requires HeadKnown(t) && id !in t.nodes
    ensures OpenTurn(t, id).Ok? && EntersAnew(t, OpenTurn(t, id).value, StartTurn(id), id)
  {
    EnterIs(t, id, Turn, "");
    OpensTheNewTurn(t, Enter(t, id, Turn, "").value, id);
    hide Enter, HeadKnown, NewlyEntered;
  }

  lemma NewResult(t: Tree, id: Id, call: CallId, name: string)
    requires HeadKnown(t) && id !in t.nodes
    ensures AddTool(t, id, call, name).Ok? && EntersAnew(t, AddTool(t, id, call, name).value,
                                                         ToolResult(id, call, name), id)
  {
    LessCalls(t, call, id);
    EnterIs(t.(calls := t.calls - {call}), id, Tool, ToolLabel(Announced(t, call), name));
    ToolLabelIs(Announced(t, call), name);
    hide Enter, HeadKnown, NewlyEntered, ToolLabel, IsToolRow;
  }

  lemma NewCompaction(t: Tree, id: Id, tokens: nat)
    requires HeadKnown(t) && id !in t.nodes
    ensures Enter(t, id, Compaction, CompactionLabel(tokens)).Ok?
    ensures EntersAnew(t, Enter(t, id, Compaction, CompactionLabel(tokens)).value, AddCompaction(id, tokens), id)
  {
    EnterIs(t, id, Compaction, CompactionLabel(tokens));
    CompactionLabelIs(tokens);
    hide Enter, HeadKnown, NewlyEntered, CompactionLabel, IsCompactionRow;
  }

  /** A new entry hangs below the head as its last child, of its step's kind and with its step's row, and
      is the head from then on; a new turn is open, and nothing else is touched. */
  lemma NewEntryIs(t: Tree, step: Step)
    requires Good(t) && Entered(step).Some? && Entered(step).value !in t.nodes
    ensures Acyclic(t.nodes) && Apply(t, step).Ok?
    ensures EntersAnew(t, Apply(t, step).value, step, Entered(step).value)
  {
    WellFormedIsAcyclic(t);
    hide WellFormed, HeadKnown, Acyclic, Enter, OpenTurn, AddTool, EntersAnew, RetryTurn, AppendTurnText, Checkout;
    match step
    case AddUser(id, text) => NewMessage(t, id, text);
    case ToolResult(id, call, name) => NewResult(t, id, call, name);
    case AddCompaction(id, tokens) => NewCompaction(t, id, tokens);
    case StartTurn(id) => NewTurn(t, id);
  }

  lemma LessCalls(t: Tree, call: CallId, id: Id)
    ensures HeadKnown(t.(calls := t.calls - {call})) == HeadKnown(t)
    ensures forall u :: NewlyEntered(t.(calls := t.calls - {call}), u, id) == NewlyEntered(t, u, id)
  {
  }

  lemma OpensTheNewTurn(t: Tree, u: Tree, id: Id)
    ensures NewlyEntered(t, u.(openTurn := Some(id)), id) == NewlyEntered(t, u, id)
  {
  }

  /** From its announce on, a turn shows the text that streams into it, for as long as it stays open. */
  lemma StartedTurnShowsItsText(t: Tree, id: Id, steps: seq<Step>)
    requires Good(t) && id !in t.nodes
    requires forall i :: 0 <= i < |steps| ==> KeepsTurnOpen(steps[i])
    ensures Acyclic(t.nodes) && Run(t, [StartTurn(id)] + steps).Ok?
    ensures var u := Run(t, [StartTurn(id)] + steps).value;
      && id in u.nodes && u.openTurn == Some(id) && u.nodes[id].kind == Turn
      && u.nodes[id].preview == TurnPreview(Streamed(steps, id))
      && IsTurnLineOf(u.nodes[id].preview, Streamed(steps, id))
  {
    hide Apply, WellFormed, HeadKnown, Acyclic, TurnPreview, IsTurnLineOf, Run;
    NewEntryIs(t, StartTurn(id));
    RunBegins(t, StartTurn(id), steps);
    var begun := Apply(t, StartTurn(id)).value;
    NoCheckouts(begun, steps);
    hide KnownCheckouts;
    AnnouncedRunNeverFails(begun, steps);
    EmptyTurnPreview();
    OpenTurnPreview(begun, id, "", steps);
    assert "" + Streamed(steps, id) == Streamed(steps, id);
    TurnPreviewIs(Streamed(steps, id));
  }

  /** The rest of a run goes on from what its first step leaves. */
  lemma RunBegins(t: Tree, first: Step, steps: seq<Step>)
    requires Good(t) && !first.MoveHead?
    ensures Acyclic(t.nodes) && Apply(t, first).Ok? && Good(Apply(t, first).value)
    ensures Acyclic(Apply(t, first).value.nodes) && Run(t, [first] + steps) == Run(Apply(t, first).value, steps)
  {
    hide Apply, WellFormed, HeadKnown, Acyclic;
    FirstOfRun(t, first);
    assert ([first] + steps)[1..] == steps;
  }

  lemma EmptyTurnPreview()
    ensures TurnPreview("") == ""
  {
  }

  lemma {:induction false} NoCheckouts(t: Tree, steps: seq<Step>)
    requires Good(t) && forall i :: 0 <= i < |steps| ==> !steps[i].MoveHead?
    ensures Acyclic(t.nodes) && KnownCheckouts(t, steps)
    decreases |steps|
  {
    WellFormedIsAcyclic(t);
    hide Apply, Acyclic;
    if steps != [] {
      StepKeepsWellFormed(t, steps[0]);
      NoCheckouts(Apply(t, steps[0]).value, steps[1..]);
    }
  }

  // ---- an old entry

  /** Steps that delete nothing. */
  predicate Deletes(step: Step) {
    step.DiscardTurn? || step.Reset?
  }

  lemma QuietStepKeeps(t: Tree, step: Step, id: Id)
    requires id in t.nodes && t.openTurn != Some(id) && !Deletes(step) && Entered(step).None?
    requires Acyclic(t.nodes)
    ensures Apply(t, step).Ok?
    ensures var u := Apply(t, step).value;
      id in u.nodes && u.openTurn != Some(id) && u.nodes[id] == t.nodes[id]
  {
    hide Acyclic;
  }

  /** The entry is as it was: its kind, its row, its place; and it is not open. */
  predicate StaysAsItWas(t: Tree, u: Tree, id: Id)
    requires id in t.nodes
  {
    && id in u.nodes && u.openTurn != Some(id) && u.nodes[id].kind == t.nodes[id].kind
    && u.nodes[id].preview == t.nodes[id].preview && u.nodes[id].parent == t.nodes[id].parent
  }

  lemma NewEntryKeeps(t: Tree, u: Tree, step: Step, added: Id, id: Id)
    requires EntersAnew(t, u, step, added) && id in t.nodes && t.openTurn != Some(id)
    ensures StaysAsItWas(t, u, id)
  {
    hide OfKind, Labelled;
  }

  lemma StepStaysGood(t: Tree, step: Step)
    requires Good(t) && (step.MoveHead? ==> step.id in t.nodes)
    ensures Acyclic(t.nodes) && Apply(t, step).Ok? && Good(Apply(t, step).value)
  {
    WellFormedIsAcyclic(t);
    StepKeepsWellFormed(t, step);
    hide WellFormed, HeadKnown, Acyclic, Apply;
  }

  lemma StepKeepsEntry(t: Tree, step: Step, id: Id)
    requires Good(t) && id in t.nodes && t.openTurn != Some(id) && !Deletes(step)
    requires step.MoveHead? ==> step.id in t.nodes
    ensures Acyclic(t.nodes) && Apply(t, step).Ok? && Good(Apply(t, step).value)
    ensures StaysAsItWas(t, Apply(t, step).value, id)
  {
    hide Good, Acyclic, Apply, EntersAnew;
    StepStaysGood(t, step);
    if Entered(step).None? {
      QuietStepKeeps(t, step, id);
    } else if Entered(step).value in t.nodes {
      KnownEntryIs(t, step);
    } else {
      NewEntryIs(t, step);
      NewEntryKeeps(t, Apply(t, step).value, step, Entered(step).value, id);
    }
  }

  /** An entry that is not the open turn keeps its kind, its place and its row until a retry or a reset. */
  lemma {:induction false} RunKeepsEntry(t: Tree, steps: seq<Step>, id: Id)
    requires Good(t) && id in t.nodes && t.openTurn != Some(id)
    requires Acyclic(t.nodes) && KnownCheckouts(t, steps)
    requires forall i :: 0 <= i < |steps| ==> !Deletes(steps[i])
    ensures Run(t, steps).Ok?
    ensures var u := Run(t, steps).value;
      && id in u.nodes && u.nodes[id].kind == t.nodes[id].kind
      && u.nodes[id].preview == t.nodes[id].preview && u.nodes[id].parent == t.nodes[id].parent
    decreases |steps|
  {
    hide Apply, WellFormed, HeadKnown;
    if steps != [] {
      StepKeepsEntry(t, steps[0], id);
      var u := Apply(t, steps[0]).value;
      WellFormedIsAcyclic(u);
      RunKeepsEntry(u, steps[1..], id);
    }
  }

  /** Announced once, an entry that is no turn carries its step's kind and row through every run that
      deletes nothing. */
  lemma EntryCarriesItsLabel(t: Tree, step: Step, steps: seq<Step>)
    requires Good(t) && Entered(step).Some? && Entered(step).value !in t.nodes && !step.StartTurn?
    requires t.openTurn != Entered(step) && Acyclic(t.nodes) && KnownCheckouts(t, [step] + steps)
    requires forall i :: 0 <= i < |steps| ==> !Deletes(steps[i])
    ensures Run(t, [step] + steps).Ok?
    ensures var u, id := Run(t, [step] + steps).value, Entered(step).value;
      && id in u.nodes && OfKind(step, u.nodes[id].kind) && Labelled(t, step, u.nodes[id].preview)
      && u.nodes[id].parent == t.head
  {
    hide Apply, WellFormed, HeadKnown, Acyclic, Labelled, Run;
    NewEntryIs(t, step);
    RunBegins(t, step, steps);
    var u := Apply(t, step).value;
    assert ([step] + steps)[1..] == steps;
    RunKeepsEntry(u, steps, Entered(step).value);
  }

  /** A known entry only takes the head: it does not open again, and nothing else changes. */
  lemma KnownEntryIs(t: Tree, step: Step)
    requires Good(t) && Entered(step).Some? && Entered(step).value in t.nodes
    ensures Acyclic(t.nodes) && Apply(t, step).Ok?
    ensures var u := Apply(t, step).value;
      && u.nodes == t.nodes && u.roots == t.roots && u.head == Entered(step) && u.openTurn == t.openTurn
      && u.calls == (if step.ToolResult? then t.calls - {step.call} else t.calls)
  {
    WellFormedIsAcyclic(t);
    hide WellFormed, Acyclic, SingleLine, ToolLabel, CompactionLabel, RetryTurn, AppendTurnText, Checkout;
  }

  /** A replay and a checkout close the open turn: no text reaches it any more, and it keeps its place and
      its row until a retry or a reset. */
  lemma ClosedTurnKeepsItsText(t: Tree, closing: Step, steps: seq<Step>, id: Id)
    requires Good(t) && id in t.nodes && (closing.CloseTurn? || (closing.MoveHead? && closing.id in t.nodes))
    requires Acyclic(t.nodes) && KnownCheckouts(t, [closing] + steps)
    requires forall i :: 0 <= i < |steps| ==> !Deletes(steps[i])
    ensures Run(t, [closing] + steps).Ok?
    ensures var u := Run(t, [closing] + steps).value;
      && id in u.nodes && u.nodes[id].kind == t.nodes[id].kind
      && u.nodes[id].preview == t.nodes[id].preview && u.nodes[id].parent == t.nodes[id].parent
  {
    ClosesIt(t, closing);
    FirstOfRun(t, closing);
    hide Apply, WellFormed, HeadKnown, Acyclic, Leaves;
    assert ([closing] + steps)[1..] == steps;
    RunKeepsEntry(Leaves(t, closing), steps, id);
  }

  lemma ClosesIt(t: Tree, closing: Step)
    requires closing.CloseTurn? || closing.MoveHead?
    ensures Leaves(t, closing).nodes == t.nodes && Leaves(t, closing).openTurn.None?
  {
  }
}
