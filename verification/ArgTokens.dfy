/** What every argument does to the scan of the gate's argument parser, said of its text and of what the
    rule declares (`tabit-gate/src/arg_parser.rs`). */
module ArgTokens {
  import opened Wrappers
  import opened Assoc
  import opened ArgParser

  /** The argument is not the end marker, and no declared flag or option as a whole. */
  predicate Inexact(d: Declared, arg: string) {
    arg != "--" && arg !in d.flags && arg !in d.options
  }

  /** The argument gives `value` to the declared option `key`. */
  predicate Gives(d: Declared, arg: string, key: string, value: string) {
    && Inexact(d, arg) && arg == key + "=" + value
    && "-" <= key && '=' !in key && key in d.options
  }

  /** The argument gives no declared option a value. */
  ghost predicate GivesNothing(d: Declared, arg: string) {
    Inexact(d, arg) && forall key, value :: !Gives(d, arg, key, value)
  }

  /** Several short flags and options in one argument. */
  ghost predicate Combined(d: Declared, arg: string) {
    GivesNothing(d, arg) && "-" <= arg && !("--" <= arg)
  }

  function Short(arg: string, k: nat): string
    requires k < |arg|
  {
    ['-', arg[k]]
  }

  /** No letter from `a` to before `b` names a declared option. */
  predicate NoOption(d: Declared, arg: string, a: nat, b: nat)
    requires b <= |arg|
  {
    forall k :: a <= k < b ==> Short(arg, k) !in d.options
  }

  /** Letter `k` is the first to name a declared option. */
  predicate FirstOption(d: Declared, arg: string, from: nat, k: nat) {
    from <= k < |arg| && Short(arg, k) in d.options && NoOption(d, arg, from, k)
  }

  /** Letter `j` raises the flag: it is declared, and no letter up to it names a declared option. */
  predicate Raises(d: Declared, arg: string, from: nat, j: nat, flag: string) {
    from <= j < |arg| && Short(arg, j) == flag && flag in d.flags && NoOption(d, arg, from, j + 1)
  }

  /** `q` has the option's value on top of `p`: a new option comes last, a known one keeps its place. */
  ghost predicate ValueSet(p: ParsedArgs, q: ParsedArgs, option: string, value: OptionValue) {
    && q.flags == p.flags && q.positionals == p.positionals
    && (forall name :: Get(q.options, name) == if name == option then Some(value) else Get(p.options, name))
    && Keys(q.options) == if Has(p.options, option) then Keys(p.options) else Keys(p.options) + [option]
  }

  lemma PutSets(p: ParsedArgs, option: string, value: OptionValue)
    ensures ValueSet(p, p.(options := Put(p.options, option, value)), option, value)
  {
    hide Put, Get;
    PutKeys(p.options, option, value);
    forall name
      ensures Get(Put(p.options, option, value), name) == if name == option then Some(value) else Get(p.options, name)
    {
      GetPut(p.options, option, value, name);
    }
  }

  // ---- the letters of a combined argument

  ghost predicate ReadsLetters(d: Declared, arg: string, from: nat, found: set<string>, waiting: Option<string>)
    requires from <= |arg|
  {
    && (forall f :: f in found <==> exists j: nat :: Raises(d, arg, from, j, f))
    && (waiting.None? ==> NoOption(d, arg, from, |arg|))
    && (waiting.Some? ==> exists k: nat :: FirstOption(d, arg, from, k) && waiting.value == Short(arg, k))
  }

  lemma RaisesNext(d: Declared, arg: string, from: nat, j: nat, f: string)
    requires from < |arg| && Short(arg, from) !in d.options
    ensures Raises(d, arg, from, j, f) <==>
            (j == from && Short(arg, from) == f && f in d.flags) || Raises(d, arg, from + 1, j, f)
  {
  }

  lemma {:induction false} LettersAre(d: Declared, arg: string, from: nat)
    requires 1 <= from <= |arg|
    ensures ReadsLetters(d, arg, from, Letters(d, arg[from..]).found, Letters(d, arg[from..]).waiting)
    decreases |arg| - from
  {
    if from < |arg| {
      assert arg[from..][0] == arg[from] && arg[from..][1..] == arg[from + 1..];
      if Short(arg, from) in d.options {
        assert FirstOption(d, arg, from, from);
      } else {
        var next := from + 1;
        LettersAre(d, arg, next);
        forall f
          ensures f in Letters(d, arg[from..]).found <==> exists j: nat :: Raises(d, arg, from, j, f)
        {
          if j: nat :| Raises(d, arg, next, j, f) {
            RaisesNext(d, arg, from, j, f);
          }
          if j: nat :| Raises(d, arg, from, j, f) {
            RaisesNext(d, arg, from, j, f);
          }
          RaisesNext(d, arg, from, from, f);
        }
        if k: nat :| FirstOption(d, arg, next, k) {
          assert FirstOption(d, arg, from, k);
        }
      }
    }
  }

  // ---- one argument

  lemma {:induction false} FirstIs(text: string, c: char, n: nat)
    requires n < |text| && text[n] == c && c !in text[..n]
    ensures IndexOfChar(text, c) == n
  {
    if n > 0 {
      assert text[..n][0] == text[0] && text[1..][..n - 1] == text[..n][1..];
      FirstIs(text[1..], c, n - 1);
    }
  }

  lemma GivesOnce(d: Declared, arg: string, key: string, value: string)
    requires Gives(d, arg, key, value)
    ensures Classify(d, arg) == Inline(key, value)
  {
    assert arg[|key|] == '=' && arg[..|key|] == key;
    FirstIs(arg, '=', |key|);
    assert arg[|key| + 1..] == value;
  }

  lemma InlineGives(d: Declared, arg: string)
    requires Inexact(d, arg) && Classify(d, arg).Inline?
    ensures Gives(d, arg, Classify(d, arg).option, Classify(d, arg).value)
  {
    LettersToken(d, arg);
  }

  lemma LettersToken(d: Declared, arg: string)
    ensures arg != "" ==> Letters(d, arg[1..]).Flags?
  {
  }

  /** What the classes of arguments are. */
  lemma ClassifyIs(d: Declared, arg: string)
    ensures arg == "--" ==> Classify(d, arg) == EndMarker
    ensures arg != "--" && arg in d.flags ==> Classify(d, arg) == Flags({arg}, None)
    ensures arg != "--" && arg !in d.flags && arg in d.options ==> Classify(d, arg) == Flags({}, Some(arg))
    ensures GivesNothing(d, arg) && "--" <= arg ==> Classify(d, arg) == Flags({}, None)
    ensures Combined(d, arg) ==>
      Classify(d, arg).Flags? && ReadsLetters(d, arg, 1, Classify(d, arg).found, Classify(d, arg).waiting)
    ensures GivesNothing(d, arg) && !("-" <= arg) ==> Classify(d, arg) == Operand
  {
    if GivesNothing(d, arg) {
      if Classify(d, arg).Inline? {
        InlineGives(d, arg);
      }
      if Combined(d, arg) {
        if |arg| > 2 {
          LettersAre(d, arg, 1);
        } else {
          assert |arg| == 2 ==> Short(arg, 1) == arg;
        }
      }
    }
  }

  /** `q` is what argument `i` makes of the scan `p` where no option waits and the options have not ended. */
  ghost predicate ReadNormally(d: Declared, arg: string, i: nat, p: ParsedArgs, q: Scan) {
    // the end marker
    && (arg == "--" ==> q == Scan(Ended, p))
    // a declared flag, or else a declared option, as a whole
    && (arg != "--" && arg in d.flags ==> q == Scan(Normal, p.(flags := p.flags + {arg})))
    && (arg != "--" && arg !in d.flags && arg in d.options ==> q == Scan(Pending(arg), p))
    // an option with its value
    && (forall key, value :: Gives(d, arg, key, value) ==>
          q.mode == Normal && ValueSet(p, q.parsed, key, OptionValue(value, i)))
    // an unknown long one
    && (GivesNothing(d, arg) && "--" <= arg ==> q == Scan(Normal, p))
    // several short ones
    && (Combined(d, arg) ==>
          && q.parsed.options == p.options && q.parsed.positionals == p.positionals
          && (forall f :: f in q.parsed.flags <==> f in p.flags || exists j: nat :: Raises(d, arg, 1, j, f))
          && (if NoOption(d, arg, 1, |arg|) then q.mode == Normal
              else exists k: nat :: FirstOption(d, arg, 1, k) && q.mode == Pending(Short(arg, k))))
    // anything else
    && (GivesNothing(d, arg) && !("-" <= arg) ==> q == Scan(Normal, p.(positionals := p.positionals + [(arg, i)])))
  }

  lemma AdvanceReads(d: Declared, p: ParsedArgs, arg: string, i: nat)
    ensures ReadNormally(d, arg, i, p, Advance(d, Scan(Normal, p), arg, i))
  {
    ClassifyIs(d, arg);
    hide Classify, Put;
    assert p.flags + {} == p.flags;
    forall key, value | Gives(d, arg, key, value)
      ensures var q := Advance(d, Scan(Normal, p), arg, i);
        q.mode == Normal && ValueSet(p, q.parsed, key, OptionValue(value, i))
    {
      GivesOnce(d, arg, key, value);
      PutSets(p, key, OptionValue(value, i));
    }
  }

  /** What one argument does. Waiting for it, an option takes the whole argument as its value; after the
      end marker it is a positional; else it is read by its text. */
  lemma ArgumentIsRead(d: Declared, args: seq<string>, i: nat)
    requires i < |args|
    ensures var s, t, arg := ScanTo(d, args, i), ScanTo(d, args, i + 1), args[i];
      match s.mode
      case Normal => ReadNormally(d, arg, i, s.parsed, t)
      case Pending(option) => t.mode == Normal && ValueSet(s.parsed, t.parsed, option, OptionValue(arg, i))
      case Ended => t == Scan(Ended, s.parsed.(positionals := s.parsed.positionals + [(arg, i)]))
  {
    hide Classify, ReadNormally, ValueSet, Put;
    var s := ScanTo(d, args, i);
    match s.mode
    case Normal => AdvanceReads(d, s.parsed, args[i], i);
    case Pending(option) => PutSets(s.parsed, option, OptionValue(args[i], i));
    case Ended =>
  }

  /** Every argument is read in one way: it is the end marker, a flag, an option, an option with its value,
      a long one or several short ones that give none, or a plain word. */
  lemma OneReading(d: Declared, arg: string)
    ensures || arg == "--" || arg in d.flags || arg in d.options
            || (exists key, value :: Gives(d, arg, key, value))
            || (GivesNothing(d, arg) && ("--" <= arg || !("-" <= arg))) || Combined(d, arg)
    ensures forall key, value, other, text ::
      Gives(d, arg, key, value) && Gives(d, arg, other, text) ==> key == other && value == text
  {
    forall key, value, other, text | Gives(d, arg, key, value) && Gives(d, arg, other, text)
      ensures key == other && value == text
    {
      GivesOnce(d, arg, key, value);
      GivesOnce(d, arg, other, text);
    }
  }

  // ---- whole argument lists

  /** An option is given a value by argument `i`: it waited for it, or the argument holds both. */
  ghost predicate GivenBy(d: Declared, args: seq<string>, i: nat, option: string, value: string)
    requires i < |args|
  {
    var mode := ScanTo(d, args, i).mode;
    || (mode == Pending(option) && value == args[i])
    || (mode == Normal && Gives(d, args[i], option, value))
  }

  /** What the parser counts as giving a value is that. */
  lemma AssignedIff(d: Declared, args: seq<string>, i: nat, option: string, value: string)
    requires i < |args|
    ensures Assigned(d, args, i) == Some((option, value)) <==> GivenBy(d, args, i, option, value)
  {
    ClassifyIs(d, args[i]);
    if ScanTo(d, args, i).mode == Normal {
      if Gives(d, args[i], option, value) {
        GivesOnce(d, args[i], option, value);
      } else if Classify(d, args[i]) == Inline(option, value) && Inexact(d, args[i]) {
        InlineGives(d, args[i]);
      }
    }
    hide Classify, ScanTo, GivesNothing, Combined, ReadsLetters;
  }

  ghost predicate Given(d: Declared, args: seq<string>, i: nat, option: string)
    requires i < |args|
  {
    exists value :: GivenBy(d, args, i, option, value)
  }

  lemma AssignsIff(d: Declared, args: seq<string>, i: nat, option: string)
    requires i < |args|
    ensures Assigns(d, args, i, option) <==> Given(d, args, i, option)
  {
    hide ScanTo, Assigned, GivenBy;
    if Assigns(d, args, i, option) {
      AssignedIff(d, args, i, option, Assigned(d, args, i).value.1);
    }
    if value :| GivenBy(d, args, i, option, value) {
      AssignedIff(d, args, i, option, value);
    }
  }

  /** The value kept for an option is the last given to it, with the index of its argument; an option that
      is never given one is not there. */
  lemma LastValueIsKept(d: Declared, args: seq<string>, option: string)
    ensures var kept := Get(Parse(d, args).options, option);
      && (kept.None? <==> forall i: nat :: i < |args| ==> !Given(d, args, i, option))
      && (kept.Some? ==>
            && kept.value.index < |args| && GivenBy(d, args, kept.value.index, option, kept.value.value)
            && (forall i: nat :: kept.value.index < i < |args| ==> !Given(d, args, i, option))
            && option in d.options)
  {
    hide ScanTo, Assigned, Assigns, Given, GivenBy, Get;
    OptionsExactly(d, args, |args|, option);
    forall i: nat | i < |args|
      ensures Assigns(d, args, i, option) <==> Given(d, args, i, option)
    {
      AssignsIff(d, args, i, option);
    }
    var kept := Get(Parse(d, args).options, option);
    if kept.Some? {
      AssignedIff(d, args, kept.value.index, option, kept.value.value);
    }
  }

  /** Argument `i` raises the flag: it is the flag, or one of its letters names it. */
  ghost predicate RaisedIn(d: Declared, args: seq<string>, i: nat, flag: string)
    requires i < |args|
  {
    && ScanTo(d, args, i).mode == Normal
    && ((args[i] == flag && flag != "--" && flag in d.flags)
        || (Combined(d, args[i]) && exists j: nat :: Raises(d, args[i], 1, j, flag)))
  }

  lemma RaisedIff(d: Declared, args: seq<string>, i: nat, flag: string)
    requires i < |args|
    ensures flag in Raised(d, args, i) <==> RaisedIn(d, args, i, flag)
  {
    ClassifyIs(d, args[i]);
    OneReading(d, args[i]);
    if key, value :| Gives(d, args[i], key, value) {
      GivesOnce(d, args[i], key, value);
    }
    hide Classify, ScanTo, Raises, Gives;
  }

  /** The flags are exactly those that some argument raises. */
  lemma FlagIsRaisedIff(d: Declared, args: seq<string>, flag: string)
    ensures flag in Parse(d, args).flags <==> exists i: nat :: i < |args| && RaisedIn(d, args, i, flag)
  {
    hide ScanTo, Raised, RaisedIn;
    FlagsExactly(d, args, |args|);
    forall i: nat | i < |args|
      ensures flag in Raised(d, args, i) <==> RaisedIn(d, args, i, flag)
    {
      RaisedIff(d, args, i, flag);
    }
  }

  /** An operand is what comes after the end marker, or a word without a dash that is no declared name and
      that no option waits for. */
  lemma PositionalIff(d: Declared, args: seq<string>, i: nat)
    requires i < |args|
    ensures IsPositional(d, args, i) <==>
            || ScanTo(d, args, i).mode == Ended
            || (ScanTo(d, args, i).mode == Normal && Inexact(d, args[i]) && !("-" <= args[i]))
  {
    ClassifyIs(d, args[i]);
    OneReading(d, args[i]);
    if key, value :| Gives(d, args[i], key, value) {
      GivesOnce(d, args[i], key, value);
    }
    hide Classify, ScanTo, Gives, ReadsLetters;
  }

  /** Argument `i` is an end marker that no option takes for its value. */
  predicate Marks(d: Declared, args: seq<string>, i: nat)
    requires i < |args|
  {
    ScanTo(d, args, i).mode == Normal && args[i] == "--"
  }

  predicate HasEnded(d: Declared, args: seq<string>, i: nat)
    requires i <= |args|
  {
    ScanTo(d, args, i).mode == Ended
  }

  lemma EndsHere(d: Declared, args: seq<string>, i: nat)
    requires i < |args|
    ensures HasEnded(d, args, i + 1) <==> HasEnded(d, args, i) || Marks(d, args, i)
  {
    ArgumentIsRead(d, args, i);
    OneReading(d, args[i]);
    hide ScanTo, Classify, Gives, Raises, FirstOption;
  }

  /** The options have ended exactly when an end marker was read. */
  lemma {:induction false} EndedIff(d: Declared, args: seq<string>, i: nat)
    requires i <= |args|
    ensures HasEnded(d, args, i) <==> exists j: nat :: j < i && Marks(d, args, j)
  {
    if i > 0 {
      hide HasEnded, Marks;
      EndedIff(d, args, i - 1);
      EndsHere(d, args, i - 1);
      assert Marks(d, args, i - 1) ==> exists j: nat :: j < i && Marks(d, args, j);
    }
  }

  /** An option waits for its value exactly when the argument before is that option, or its letters name
      it first. */
  lemma WaitsIff(d: Declared, args: seq<string>, i: nat, option: string)
    requires i < |args|
    ensures ScanTo(d, args, i + 1).mode == Pending(option) <==>
            && ScanTo(d, args, i).mode == Normal
            && ((args[i] == option && option != "--" && option !in d.flags && option in d.options)
                || (Combined(d, args[i])
                    && exists k: nat :: FirstOption(d, args[i], 1, k) && option == Short(args[i], k)))
  {
    ArgumentIsRead(d, args, i);
    OneReading(d, args[i]);
    hide ScanTo, Classify, Gives, Raises;
  }
}
