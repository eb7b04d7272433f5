/** The permission gate's argument parser (`tabit-gate/src/arg_parser.rs`): one left-to-right scan
    with a pending option and an end-of-options marker. The loop is proved against a fold; the
    lemmas say which argument ends up where. */
module ArgParser {
  import opened Wrappers
  import opened Assoc

  /** What the matched rule declares. */
  datatype Declared = Declared(flags: set<string>, options: set<string>)

  datatype OptionValue = OptionValue(value: string, index: nat)

  datatype ParsedArgs = ParsedArgs(
    flags: set<string>,
    options: Assoc<string, OptionValue>,
    positionals: seq<(string, nat)>)

  /** What one argument means when no option is waiting for it and the options have not ended. */
  datatype Token =
    | EndMarker
    | Flags(found: set<string>, waiting: Option<string>)
    | Inline(option: string, value: string)
    | Operand

  function IndexOfChar(s: string, c: char): (i: nat)
    ensures i <= |s| && (i < |s| <==> c in s)
    ensures i < |s| ==> s[i] == c && c !in s[..i]
  {
    if s == "" || s[0] == c then 0
    else
      var i := IndexOfChar(s[1..], c);
      assert s[..i + 1] == [s[0]] + s[1..][..i];
      i + 1
  }

  predicate Dashed(arg: string) {
    "-" <= arg
  }

  predicate DoubleDashed(arg: string) {
    "--" <= arg
  }

  /** The letters of a combined short token, up to and including the first declared option. */
  function Letters(d: Declared, letters: string): (token: Token)
    ensures token.Flags?
  {
    if letters == "" then Flags({}, None)
    else
      var short := ['-', letters[0]];
      if short in d.options then Flags({}, Some(short))
      else
        var rest := Letters(d, letters[1..]);
        Flags((if short in d.flags then {short} else {}) + rest.found, rest.waiting)
  }

  function Classify(d: Declared, arg: string): Token {
    if arg == "--" then EndMarker
    else if arg in d.flags then Flags({arg}, None)
    else if arg in d.options then Flags({}, Some(arg))
    else if Dashed(arg) && '=' in arg && arg[..IndexOfChar(arg, '=')] in d.options then
      var eq := IndexOfChar(arg, '=');
      Inline(arg[..eq], arg[eq + 1..])
    else if DoubleDashed(arg) then Flags({}, None)
    else if Dashed(arg) then (if |arg| > 2 then Letters(d, arg[1..]) else Flags({}, None))
    else Operand
  }

  // ---- the scan as a fold

  datatype Mode = Normal | Pending(option: string) | Ended

  datatype Scan = Scan(mode: Mode, parsed: ParsedArgs)

  function Start(): Scan {
    Scan(Normal, ParsedArgs({}, [], []))
  }

  function Advance(d: Declared, s: Scan, arg: string, i: nat): Scan {
    var p := s.parsed;
    match s.mode
    case Pending(option) => Scan(Normal, p.(options := Put(p.options, option, OptionValue(arg, i))))
    case Ended => s.(parsed := p.(positionals := p.positionals + [(arg, i)]))
    case Normal =>
      match Classify(d, arg)
      case EndMarker => s.(mode := Ended)
      case Flags(found, waiting) =>
        Scan(if waiting.Some? then Pending(waiting.value) else Normal, p.(flags := p.flags + found))
      case Inline(option, value) => s.(parsed := p.(options := Put(p.options, option, OptionValue(value, i))))
      case Operand => s.(parsed := p.(positionals := p.positionals + [(arg, i)]))
  }

  /** The scan after the first `n` arguments. */
  function ScanTo(d: Declared, args: seq<string>, n: nat): Scan
    requires n <= |args|
  {
    if n == 0 then Start() else Advance(d, ScanTo(d, args, n - 1), args[n - 1], n - 1)
  }

  function Parse(d: Declared, args: seq<string>): ParsedArgs {
    ScanTo(d, args, |args|).parsed
  }

  // ---- the parser

  method SetOption(options: Assoc<string, OptionValue>, name: string, entry: OptionValue)
    returns (after: Assoc<string, OptionValue>)
    ensures after == Put(options, name, entry)
  {
    var i := 0;
    while i < |options| && options[i].0 != name
      invariant i <= |options|
      invariant Put(options, name, entry) == options[..i] + Put(options[i..], name, entry)
    {
      PutSkips(options, i, name, entry);
      i := i + 1;
    }
    if i < |options| {
      assert options[i..][1..] == options[i + 1..];
      after := options[i := (name, entry)];
    } else {
      after := options + [(name, entry)];
    }
  }

  lemma PutSkips(options: Assoc<string, OptionValue>, i: nat, name: string, entry: OptionValue)
    requires i < |options| && options[i].0 != name
    ensures options[..i] + Put(options[i..], name, entry) == options[..i + 1] + Put(options[i + 1..], name, entry)
  {
    assert options[i..][1..] == options[i + 1..];
    assert options[..i + 1] == options[..i] + [options[i]];
  }

  method CombinedShorts(d: Declared, arg: string) returns (found: set<string>, waiting: Option<string>)
    requires arg != ""
    ensures Flags(found, waiting) == Letters(d, arg[1..])
  {
    found, waiting := {}, None;
    var letters := arg[1..];
    var i := 0;
    assert letters[0..] == letters;
    while i < |letters| && waiting.None?
      invariant i <= |letters|
      invariant var rest := if waiting.Some? then Flags({}, waiting) else Letters(d, letters[i..]);
        Letters(d, letters) == Flags(found + rest.found, rest.waiting)
    {
      assert letters[i..][1..] == letters[i + 1..];
      var short := ['-', letters[i]];
      if short in d.options {
        waiting := Some(short);
      } else if short in d.flags {
        found := found + {short};
      }
      i := i + 1;
    }
  }

  method ParseArgs(d: Declared, args: seq<string>) returns (parsed: ParsedArgs)
    ensures parsed == Parse(d, args)
  {
    parsed := ParsedArgs({}, [], []);
    var pending: Option<string> := None;
    for i := 0 to |args|
      invariant ScanTo(d, args, i) == Scan(if pending.Some? then Pending(pending.value) else Normal, parsed)
    {
      var arg := args[i];
      ghost var before := ScanTo(d, args, i);
      assert ScanTo(d, args, i + 1) == Advance(d, before, arg, i);
      // 1. Consume a pending option's value.
      if pending.Some? {
        var options := SetOption(parsed.options, pending.value, OptionValue(arg, i));
        parsed, pending := parsed.(options := options), None;
        continue;
      }
      // 2. End of options: everything after is positional.
      if arg == "--" {
        for j := i + 1 to |args|
          invariant ScanTo(d, args, j) == Scan(Ended, parsed)
        {
          parsed := parsed.(positionals := parsed.positionals + [(args[j], j)]);
        }
        return;
      }
      // 3. and 4. Exact flag and exact option.
      if arg in d.flags {
        parsed := parsed.(flags := parsed.flags + {arg});
        continue;
      }
      if arg in d.options {
        pending := Some(arg);
        assert parsed.flags + {} == parsed.flags;
        continue;
      }
      // 5. option=value.
      if Dashed(arg) && '=' in arg {
        var eq := IndexOfChar(arg, '=');
        if arg[..eq] in d.options {
          var options := SetOption(parsed.options, arg[..eq], OptionValue(arg[eq + 1..], i));
          parsed := parsed.(options := options);
          continue;
        }
      }
      // 6. Unknown long.
      if DoubleDashed(arg) {
        assert parsed.flags + {} == parsed.flags;
        continue;
      }
      // 7. Combined shorts.
      if Dashed(arg) && |arg| > 2 {
        var found, waiting := CombinedShorts(d, arg);
        parsed, pending := parsed.(flags := parsed.flags + found), waiting;
        continue;
      }
      // 8. Unknown short.
      if Dashed(arg) {
        assert parsed.flags + {} == parsed.flags;
        continue;
      }
      // 9. Positional.
      parsed := parsed.(positionals := parsed.positionals + [(arg, i)]);
    }
  }

  // ---- which argument ends up where

  function ModeAt(d: Declared, args: seq<string>, i: nat): Mode
    requires i <= |args|
  {
    ScanTo(d, args, i).mode
  }

  /** Argument `i` is a positional. */
  predicate IsPositional(d: Declared, args: seq<string>, i: nat)
    requires i < |args|
  {
    ModeAt(d, args, i).Ended? || (ModeAt(d, args, i).Normal? && Classify(d, args[i]).Operand?)
  }

  /** The option argument `i` gives a value to, and that value. */
  function Assigned(d: Declared, args: seq<string>, i: nat): Option<(string, string)>
    requires i < |args|
  {
    match ModeAt(d, args, i)
    case Pending(option) => Some((option, args[i]))
    case Ended => None
    case Normal =>
      match Classify(d, args[i])
      case Inline(option, value) => Some((option, value))
      case _ => None
  }

  predicate Assigns(d: Declared, args: seq<string>, i: nat, name: string)
    requires i < |args|
  {
    Assigned(d, args, i).Some? && Assigned(d, args, i).value.0 == name
  }

  /** The flags argument `i` raises. */
  function Raised(d: Declared, args: seq<string>, i: nat): set<string>
    requires i < |args|
  {
    if ModeAt(d, args, i).Normal? && Classify(d, args[i]).Flags? then Classify(d, args[i]).found else {}
  }

  /** No argument has two roles. */
  lemma OneRoleEach(d: Declared, args: seq<string>, i: nat)
    requires i < |args|
    ensures IsPositional(d, args, i) ==> Assigned(d, args, i).None? && Raised(d, args, i) == {}
    ensures Assigned(d, args, i).Some? ==> Raised(d, args, i) == {}
  {
  }

  /** Entry `k` of the positionals is a positional argument with its own text. */
  ghost predicate OwnText(d: Declared, args: seq<string>, p: (string, nat)) {
    p.1 < |args| && p.0 == args[p.1] && IsPositional(d, args, p.1)
  }

  function PositionalsTo(d: Declared, args: seq<string>, n: nat): seq<(string, nat)>
    requires n <= |args|
  {
    ScanTo(d, args, n).parsed.positionals
  }

  /** Every positional is a positional argument with its own text, and they stand in order. */
  lemma {:induction false} PositionalsSound(d: Declared, args: seq<string>, n: nat)
    requires n <= |args|
    ensures forall k :: 0 <= k < |PositionalsTo(d, args, n)| ==>
      PositionalsTo(d, args, n)[k].1 < n && OwnText(d, args, PositionalsTo(d, args, n)[k])
    ensures forall k, l :: 0 <= k < l < |PositionalsTo(d, args, n)| ==>
      PositionalsTo(d, args, n)[k].1 < PositionalsTo(d, args, n)[l].1
  {
    if n > 0 {
      PositionalsSound(d, args, n - 1);
      PositionalStep(d, args, n);
      if IsPositional(d, args, n - 1) {
        LastIsOwnText(d, args, n - 1);
      }
    }
  }

  /** Every positional argument is among them. */
  lemma {:induction false} PositionalsComplete(d: Declared, args: seq<string>, n: nat, i: nat)
    requires i < n <= |args| && IsPositional(d, args, i)
    ensures (args[i], i) in PositionalsTo(d, args, n)
  {
    PositionalStep(d, args, n);
    if i < n - 1 {
      PositionalsComplete(d, args, n - 1, i);
    }
  }

  lemma LastIsOwnText(d: Declared, args: seq<string>, i: nat)
    requires i < |args| && IsPositional(d, args, i)
    ensures OwnText(d, args, (args[i], i))
  {
  }

  lemma PositionalStep(d: Declared, args: seq<string>, n: nat)
    requires 0 < n <= |args|
    ensures PositionalsTo(d, args, n) == PositionalsTo(d, args, n - 1) +
      if IsPositional(d, args, n - 1) then [(args[n - 1], n - 1)] else []
  {
    var ps := ScanTo(d, args, n - 1).parsed.positionals;
    assert ps + [] == ps;
  }

  /** The flags are exactly those some argument raises, and declared ones only. */
  lemma {:induction false} FlagsExactly(d: Declared, args: seq<string>, n: nat)
    requires n <= |args|
    ensures forall f :: f in ScanTo(d, args, n).parsed.flags <==> exists i :: 0 <= i < n && f in Raised(d, args, i)
    ensures ScanTo(d, args, n).parsed.flags <= d.flags
  {
    if n > 0 {
      FlagsExactly(d, args, n - 1);
      RaisedAreDeclared(d, args, n - 1);
    }
  }

  lemma RaisedAreDeclared(d: Declared, args: seq<string>, i: nat)
    requires i < |args|
    ensures Raised(d, args, i) <= d.flags
  {
    if Dashed(args[i]) {
      LettersAreDeclared(d, args[i][1..]);
    }
  }

  lemma {:induction false} LettersAreDeclared(d: Declared, letters: string)
    ensures Letters(d, letters).found <= d.flags
    ensures Letters(d, letters).waiting.Some? ==> Letters(d, letters).waiting.value in d.options
  {
    if letters != "" {
      LettersAreDeclared(d, letters[1..]);
    }
  }

  /** An option that waits for its value is a declared one. */
  lemma {:induction false} PendingIsDeclared(d: Declared, args: seq<string>, n: nat)
    requires n <= |args|
    ensures ModeAt(d, args, n).Pending? ==> ModeAt(d, args, n).option in d.options
  {
    if n > 0 && Dashed(args[n - 1]) {
      LettersAreDeclared(d, args[n - 1][1..]);
    }
  }

  /** The value kept for an option is the last one given, with the index it came from; an option
      nothing gives a value to is not there. */
  lemma {:induction false} OptionsExactly(d: Declared, args: seq<string>, n: nat, name: string)
    requires n <= |args|
    ensures var kept := Get(ScanTo(d, args, n).parsed.options, name);
      && (kept.None? <==> forall i :: 0 <= i < n ==> !Assigns(d, args, i, name))
      && (kept.Some? ==>
            && kept.value.index < n
            && Assigned(d, args, kept.value.index) == Some((name, kept.value.value))
            && (forall i :: kept.value.index < i < n ==> !Assigns(d, args, i, name))
            && name in d.options)
  {
    hide Classify;
    if n > 0 {
      OptionsExactly(d, args, n - 1, name);
      PendingIsDeclared(d, args, n - 1);
      OptionStep(d, args, n, name);
    }
  }

  lemma OptionStep(d: Declared, args: seq<string>, n: nat, name: string)
    requires 0 < n <= |args|
    ensures Get(ScanTo(d, args, n).parsed.options, name) ==
      if Assigns(d, args, n - 1, name) then Some(OptionValue(Assigned(d, args, n - 1).value.1, n - 1))
      else Get(ScanTo(d, args, n - 1).parsed.options, name)
    ensures Assigned(d, args, n - 1).Some? && ModeAt(d, args, n - 1).Normal? ==>
      Assigned(d, args, n - 1).value.0 in d.options
  {
    if Assigned(d, args, n - 1).Some? {
      var (option, value) := Assigned(d, args, n - 1).value;
      GetPut(ScanTo(d, args, n - 1).parsed.options, option, OptionValue(value, n - 1), name);
    }
  }

  lemma {:induction false} OptionsDistinct(d: Declared, args: seq<string>, n: nat)
    requires n <= |args|
    ensures Distinct(ScanTo(d, args, n).parsed.options)
  {
    if n > 0 {
      OptionsDistinct(d, args, n - 1);
      if Assigned(d, args, n - 1).Some? {
        var (option, value) := Assigned(d, args, n - 1).value;
        PutDistinct(ScanTo(d, args, n - 1).parsed.options, option, OptionValue(value, n - 1));
      }
    }
  }

  /** No index serves as both a positional and a kept option value. */
  lemma PositionalsAndValuesApart(d: Declared, args: seq<string>, k: nat, name: string)
    requires k < |Parse(d, args).positionals| && Get(Parse(d, args).options, name).Some?
    ensures Parse(d, args).positionals[k].1 != Get(Parse(d, args).options, name).value.index
  {
    PositionalsSound(d, args, |args|);
    OptionsExactly(d, args, |args|, name);
    var p := PositionalsTo(d, args, |args|)[k];
    assert OwnText(d, args, p);
    OneRoleEach(d, args, p.1);
  }

  /** After an acted-on end marker everything is positional. */
  lemma EndMarkerEndsOptions(d: Declared, args: seq<string>, i: nat, j: nat)
    requires i < j < |args| && ModeAt(d, args, i).Normal? && args[i] == "--"
    ensures IsPositional(d, args, j) && (args[j], j) in Parse(d, args).positionals
  {
    EndedStays(d, args, i + 1, j);
    PositionalsComplete(d, args, |args|, j);
  }

  lemma {:induction false} EndedStays(d: Declared, args: seq<string>, i: nat, j: nat)
    requires i <= j <= |args| && ModeAt(d, args, i).Ended?
    ensures ModeAt(d, args, j).Ended?
    decreases j - i
  {
    if i < j {
      EndedStays(d, args, i + 1, j);
    }
  }

  // ---- composition

  function ShiftPositionals(ps: seq<(string, nat)>, shift: nat): (r: seq<(string, nat)>)
    ensures |r| == |ps|
  {
    seq(|ps|, k requires 0 <= k < |ps| => (ps[k].0, ps[k].1 + shift))
  }

  /** Set every option of `b` on top of `a`, its indices moved by `shift`. */
  function Overlay(a: Assoc<string, OptionValue>, b: Assoc<string, OptionValue>, shift: nat): Assoc<string, OptionValue>
    decreases |b|
  {
    if b == [] then a else Overlay(Put(a, b[0].0, Shifted(b[0].1, shift)), b[1..], shift)
  }

  function Shifted(v: OptionValue, shift: nat): OptionValue {
    v.(index := v.index + shift)
  }

  function Combine(a: ParsedArgs, b: ParsedArgs, shift: nat): ParsedArgs {
    ParsedArgs(a.flags + b.flags, Overlay(a.options, b.options, shift),
               a.positionals + ShiftPositionals(b.positionals, shift))
  }

  lemma {:induction false} ScanPrefix(d: Declared, a: seq<string>, b: seq<string>, n: nat)
    requires n <= |a|
    ensures ScanTo(d, a + b, n) == ScanTo(d, a, n)
  {
    if n > 0 {
      ScanPrefix(d, a, b, n - 1);
    }
  }

  /** A key `b` does not set can be set before or after the overlay, when it is already there. */
  lemma {:induction false} OverlayElsewhere(a: Assoc<string, OptionValue>, b: Assoc<string, OptionValue>, shift: nat,
                                            k: string, w: OptionValue)
    requires Has(a, k) && !Has(b, k)
    ensures Put(Overlay(a, b, shift), k, w) == Overlay(Put(a, k, w), b, shift)
    decreases |b|
  {
    if b != [] {
      var l, u := b[0].0, Shifted(b[0].1, shift);
      GetPut(a, l, u, k);
      OverlayElsewhere(Put(a, l, u), b[1..], shift, k, w);
      PutCommutes(a, k, w, l, u);
    }
  }

  /** Overlaying commutes with setting one more option on the right. */
  lemma {:induction false} OverlayPut(a: Assoc<string, OptionValue>, b: Assoc<string, OptionValue>, shift: nat,
                                      k: string, v: OptionValue)
    requires Distinct(b)
    ensures Overlay(a, Put(b, k, v), shift) == Put(Overlay(a, b, shift), k, Shifted(v, shift))
    decreases |b|
  {
    if b != [] {
      var first := Put(a, b[0].0, Shifted(b[0].1, shift));
      if b[0].0 == k {
        assert Put(b, k, v)[1..] == b[1..];
        GetPut(a, k, Shifted(b[0].1, shift), k);
        OverlayElsewhere(first, b[1..], shift, k, Shifted(v, shift));
        PutTwice(a, k, Shifted(b[0].1, shift), Shifted(v, shift));
      } else {
        assert Put(b, k, v)[1..] == Put(b[1..], k, v);
        OverlayPut(first, b[1..], shift, k, v);
      }
    }
  }

  /** Parsing `a` followed by `b` is parsing each and combining, when `a` ends with no option waiting
      and no end marker. */
  lemma {:induction false} ParseComposes(d: Declared, a: seq<string>, b: seq<string>, n: nat)
    requires ModeAt(d, a, |a|).Normal? && n <= |b|
    ensures ScanTo(d, a + b, |a| + n)
      == Scan(ModeAt(d, b, n), Combine(Parse(d, a), ScanTo(d, b, n).parsed, |a|))
  {
    hide Advance, Combine;
    if n == 0 {
      ScanPrefix(d, a, b, |a|);
      CombineNothing(Parse(d, a), |a|);
    } else {
      ParseComposes(d, a, b, n - 1);
      OptionsDistinct(d, b, n - 1);
      AdvanceCombines(d, Parse(d, a), ScanTo(d, b, n - 1), b[n - 1], n - 1, |a|);
      assert (a + b)[|a| + n - 1] == b[n - 1];
    }
  }

  lemma CombineNothing(a: ParsedArgs, shift: nat)
    ensures Combine(a, Start().parsed, shift) == a
  {
    assert a.flags + {} == a.flags;
    assert a.positionals + ShiftPositionals([], shift) == a.positionals;
  }

  lemma AdvanceCombines(d: Declared, a: ParsedArgs, s: Scan, arg: string, i: nat, shift: nat)
    requires Distinct(s.parsed.options)
    ensures Advance(d, Scan(s.mode, Combine(a, s.parsed, shift)), arg, shift + i)
      == Scan(Advance(d, s, arg, i).mode, Combine(a, Advance(d, s, arg, i).parsed, shift))
  {
    hide Classify;
    var p := s.parsed;
    match s.mode
    case Pending(option) => OverlayPut(a.options, p.options, shift, option, OptionValue(arg, i));
    case Ended => ShiftPush(a.positionals, p.positionals, arg, i, shift);
    case Normal =>
      match Classify(d, arg)
      case Inline(option, value) => OverlayPut(a.options, p.options, shift, option, OptionValue(value, i));
      case Flags(found, _) => assert a.flags + p.flags + found == a.flags + (p.flags + found);
      case Operand => ShiftPush(a.positionals, p.positionals, arg, i, shift);
      case EndMarker =>
  }

  lemma ShiftPush(a: seq<(string, nat)>, ps: seq<(string, nat)>, arg: string, i: nat, shift: nat)
    ensures a + ShiftPositionals(ps + [(arg, i)], shift) == a + ShiftPositionals(ps, shift) + [(arg, shift + i)]
  {
  }

  /** When `a` ends after an end marker instead, all of `b` is positional. */
  lemma {:induction false} ParseAfterMarker(d: Declared, a: seq<string>, b: seq<string>, n: nat)
    requires ModeAt(d, a, |a|).Ended? && n <= |b|
    ensures ScanTo(d, a + b, |a| + n) == Scan(Ended, Parse(d, a).(positionals :=
      Parse(d, a).positionals + seq(n, k requires 0 <= k < n => (b[k], |a| + k))))
  {
    hide Classify;
    ScanPrefix(d, a, b, |a|);
    if n > 0 {
      ParseAfterMarker(d, a, b, n - 1);
      assert (a + b)[|a| + n - 1] == b[n - 1];
    }
  }
}
