/** The one-line previews of a session-tree row (`session-tree.ts`): whitespace flattening,
    trimming, clipping, and the label of a tool row. */
module Previews {
  import opened Wrappers
  import opened Sequences

  const PREVIEW_LIMIT := 200
  const ELLIPSIS: char := '\U{2026}'

  /** What a tool call announced: its name, its raw arguments, and what parsing those arguments as
      JSON yields (key and printed value, in order), `None` when parsing throws. */
  datatype ToolCall = ToolCall(name: string, args: Option<string>, entries: Option<seq<(string, string)>>)

  /** The characters JavaScript's `trim` removes. */
  predicate IsSpace(c: char) {
    || '\t' <= c <= '\r' || c == ' ' || c == '\U{A0}' || c == '\U{1680}'
    || '\U{2000}' <= c <= '\U{200A}' || c == '\U{2028}' || c == '\U{2029}'
    || c == '\U{202F}' || c == '\U{205F}' || c == '\U{3000}' || c == '\U{FEFF}'
  }

  function Flatten(text: string): (r: string)
    ensures |r| == |text|
    ensures OneLine(r)
  {
    seq(|text|, i requires 0 <= i < |text| => if text[i] == '\n' || text[i] == '\t' then ' ' else text[i])
  }

  function TrimStart(text: string): (r: string)
    ensures r == [] || !IsSpace(r[0])
    ensures |r| <= |text| && r == text[|text| - |r|..]
  {
    if text != [] && IsSpace(text[0]) then TrimStart(text[1..]) else text
  }

  function TrimEnd(text: string): (r: string)
    ensures r == [] || !IsSpace(r[|r| - 1])
    ensures r <= text
  {
    if text != [] && IsSpace(text[|text| - 1]) then TrimEnd(text[..|text| - 1]) else text
  }

  function Trim(text: string): string {
    TrimEnd(TrimStart(text))
  }

  function Clip(text: string): string {
    if |text| > PREVIEW_LIMIT then text[..PREVIEW_LIMIT] + [ELLIPSIS] else text
  }

  function SingleLine(text: string): (r: string)
    ensures OneLine(r)
  {
    Clip(Trim(Flatten(text)))
  }

  /** The preview a turn carries once `text` has streamed into it. */
  function TurnPreview(text: string): string {
    Clip(TrimStart(Flatten(text)))
  }

  /** One delta appended to an open turn's preview. */
  function AppendPreview(preview: string, delta: string): string {
    Clip(TrimStart(preview + Flatten(delta)))
  }

  ghost predicate OneLine(text: string) {
    '\n' !in text && '\t' !in text
  }

  // ---- splitting a turn's text never shows

  function Concat(parts: seq<string>): string {
    if parts == [] then "" else parts[0] + Concat(parts[1..])
  }

  function AppendAll(preview: string, deltas: seq<string>): string
    decreases |deltas|
  {
    if deltas == [] then preview else AppendAll(AppendPreview(preview, deltas[0]), deltas[1..])
  }

  lemma {:induction false} TrimStartConcat(a: string, b: string)
    ensures TrimStart(a + b) == if TrimStart(a) == "" then TrimStart(b) else TrimStart(a) + b
  {
    if a == "" {
      assert a + b == b;
    } else if IsSpace(a[0]) {
      assert (a + b)[1..] == a[1..] + b;
      TrimStartConcat(a[1..], b);
    }
  }

  lemma FlattenConcat(a: string, b: string)
    ensures Flatten(a + b) == Flatten(a) + Flatten(b)
  {
  }

  /** Clipping before more text arrives changes nothing: what was cut is cut again. */
  lemma ClipConcat(kept: string, d: string)
    ensures Clip(Clip(kept) + d) == Clip(kept + d)
    ensures kept != "" ==> Clip(kept) != "" && Clip(kept)[0] == kept[0]
  {
    if |kept| > PREVIEW_LIMIT {
      assert (Clip(kept) + d)[..PREVIEW_LIMIT] == kept[..PREVIEW_LIMIT];
      assert (kept + d)[..PREVIEW_LIMIT] == kept[..PREVIEW_LIMIT];
    }
  }

  /** Trimming after a clip of already trimmed text removes nothing but what the delta leads with. */
  lemma TrimClipped(kept: string, d: string)
    requires kept == "" || !IsSpace(kept[0])
    ensures Clip(TrimStart(Clip(kept) + d)) == if kept == "" then Clip(TrimStart(d)) else Clip(kept + d)
  {
    ClipConcat(kept, d);
    if kept == "" {
      assert Clip(kept) + d == d;
    } else {
      assert (Clip(kept) + d)[0] == kept[0];
    }
  }

  /** Appending a delta to the preview of `text` gives the preview of `text + delta`: clipping and
      trimming early lose nothing that the later clip and trim would have kept. */
  lemma AppendIsPreviewOfWhole(text: string, delta: string)
    ensures AppendPreview(TurnPreview(text), delta) == TurnPreview(text + delta)
  {
    var kept, d := TrimStart(Flatten(text)), Flatten(delta);
    TrimClipped(kept, d);
    FlattenConcat(text, delta);
    TrimStartConcat(Flatten(text), d);
    assert TrimStart(kept) == kept;
  }

  /** However a turn's text is cut into deltas, its preview is the preview of the whole text; a
      replay that announces the full text in one piece agrees with the live stream. */
  lemma {:induction false} PreviewIgnoresSplits(text: string, deltas: seq<string>)
    ensures AppendAll(TurnPreview(text), deltas) == TurnPreview(text + Concat(deltas))
    decreases |deltas|
  {
    hide AppendPreview, TurnPreview;
    if deltas == [] {
      assert text + Concat(deltas) == text;
    } else {
      var next := text + deltas[0];
      AppendIsPreviewOfWhole(text, deltas[0]);
      PreviewIgnoresSplits(next, deltas[1..]);
      assert next + Concat(deltas[1..]) == text + Concat(deltas);
    }
  }

  // ---- tool labels

  /** The muted tool-call row: `name key: value, ...` from the first three arguments. */
  function FormatCall(call: ToolCall): string {
    if call.args.None? || call.args.value == "" then call.name
    else match call.entries
      case Some(entries) =>
        var shown := if |entries| > 3 then entries[..3] else entries;
        var parts := seq(|shown|, i requires 0 <= i < |shown| => shown[i].0 + ": " + SingleLine(shown[i].1));
        SingleLine(if |parts| > 0 then call.name + " " + Join(parts, ", ") else call.name)
      case None =>
        SingleLine(call.name + " " + Clip(call.args.value))
  }

  /** The preview a tool row is created with. */
  function ToolLabel(call: Option<ToolCall>, name: string): string {
    match call
    case None => name
    case Some(announced) => FormatCall(announced)
  }

  /** The name that reaches the row unprocessed, if one does. */
  function RawName(call: Option<ToolCall>, name: string): Option<string> {
    match call
    case None => Some(name)
    case Some(announced) =>
      if announced.args.None? || announced.args.value == "" then Some(announced.name) else None
  }

  /** `session-tree.ts` says every write path single-lines. A tool row without arguments does not:
      its name goes in as it came, so the row is one line exactly when that name is. */
  lemma ToolLabelOneLineIff(call: Option<ToolCall>, name: string)
    ensures OneLine(ToolLabel(call, name)) <==> (RawName(call, name).Some? ==> OneLine(RawName(call, name).value))
  {
  }

  /** The failing family is inhabited: a result whose call was never announced. */
  lemma ToolLabelCanBreakTheLine()
    ensures !OneLine(ToolLabel(None, "a\nb"))
  {
    assert "a\nb"[1] == '\n';
  }

  // ---- compaction labels

  function Digits(n: nat): (r: string)
    ensures r != "" && forall c :: c in r ==> '0' <= c <= '9'
  {
    if n < 10 then [('0' as int + n) as char] else Digits(n / 10) + Digits(n % 10)
  }

  /** The preview of a compaction pass; `Math.round` on a non-negative quotient rounds half up. */
  function CompactionLabel(totalTokens: nat): (r: string)
    ensures OneLine(r)
  {
    "[compaction: " + Digits((totalTokens + 500) / 1000) + "k tokens]"
  }
}
