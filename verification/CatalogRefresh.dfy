/** One refresh of the model catalog (`tabit-app/src/catalog.rs`): the freshness check, the pointer
    phase, and the artifact phase with its fallback order, over the files of one machine. Mirrors,
    clock, digest and parser are inputs. */
module CatalogRefresh {
  import opened Wrappers
  import opened Sequences

  /** The text of a file; bytes that are no text do not parse. */
  type Bytes = string

  const SUPPORTED_SCHEMA: nat := 1
  const MAX_SECONDS: nat := 0xFFFF_FFFF_FFFF_FFFF

  datatype Latest = Latest(version: string, sha256: string, minSchema: nat)

  /** What a mirror answers this time: its pointer, when one arrives in time and parses, and the bytes
      of a version's artifact, when they arrive in time. */
  datatype Mirror = Mirror(pointer: Option<Latest>, artifact: string -> Option<Bytes>)

  /** The unseen parts: the digest and the fragment parser. */
  datatype Codec = Codec(digest: Bytes -> string, parses: Bytes -> bool)

  const HEADER := " generated by" + " tabit's catalog" + " manager (version "
  const HEADER_REST := ") \U{2014} edits here are"
  const ADVICE := " overwritten; override" + " a model or provider" + " in providers.toml" + " instead."

  /** An artifact as it is written to the file: two lines of comment and a blank one ahead of it. */
  function Stamped(version: string, body: Bytes): Bytes {
    "#" + HEADER + version + HEADER_REST + Advised(body)
  }

  /** The end of the first line, and what follows it. */
  function Advised(body: Bytes): Bytes {
    "\n#" + ADVICE + "\n\n" + body
  }

  datatype Stamp = Stamp(version: string, fetchedAt: nat)

  datatype Settings = Settings(autoUpdate: bool, ttlHours: nat)

  /** How a write of the stamp in place ends: done, never begun, or stopped with the old one gone. */
  datatype Write = Written | NotBegun | Truncated

  /** Whether each local operation succeeds this time. */
  datatype Disk = Disk(directory: bool, lock: bool, temp: bool, rename: bool, stamp: Write)

  datatype Reason = AutoUpdateOff | DirectoryUnusable | LockHeld | EveryMirrorFailed | SchemaTooNew | ArtifactsFailed
    | InstallFailed

  datatype Outcome = Fresh(version: string) | Updated(version: string) | Offline(reason: Reason)

  /** The installed file parses. */
  predicate Installed(c: Codec, file: Option<Bytes>) {
    file.Some? && c.parses(file.value)
  }

  function Ttl(s: Settings): nat {
    if s.ttlHours * 3600 > MAX_SECONDS then MAX_SECONDS else s.ttlHours * 3600
  }

  /** Fresh: stamped in the past, within its time to live, and vouching for a file that parses. */
  predicate CacheFresh(s: Settings, c: Codec, stamp: Option<Stamp>, file: Option<Bytes>, now: nat) {
    stamp.Some? && stamp.value.fetchedAt <= now && now - stamp.value.fetchedAt < Ttl(s) && Installed(c, file)
  }

  // ---- the mirror order

  /** The first mirror whose pointer parses. */
  function FirstPointer(mirrors: seq<Mirror>): (r: Option<(nat, Latest)>)
    ensures r.Some? ==> r.value.0 < |mirrors|
  {
    if mirrors == [] then None
    else if mirrors[0].pointer.Some? then Some((0, mirrors[0].pointer.value))
    else match FirstPointer(mirrors[1..])
      case None => None
      case Some((i, latest)) => Some((i + 1, latest))
  }

  /** The pointer's mirror, the ones after it, then the ones before it. */
  function Rotation(won: nat, n: nat): (order: seq<nat>)
    requires won <= n
    ensures |order| == n
    ensures forall k :: 0 <= k < |order| ==> order[k] < n
  {
    seq(n, k requires 0 <= k < n => if won + k < n then won + k else won + k - n)
  }

  /** The fallback order asks every mirror, and none twice. */
  lemma RotationAsksEachOnce(won: nat, n: nat)
    requires won <= n
    ensures NoDup(Rotation(won, n))
    ensures forall i :: i in Rotation(won, n) <==> 0 <= i < n
  {
    var order := Rotation(won, n);
    forall i | 0 <= i < n
      ensures i in order
    {
      var k := if i >= won then i - won else i + n - won;
      assert order[k] == i;
    }
  }

  lemma {:induction false} FirstPointerIsFirst(mirrors: seq<Mirror>)
    ensures FirstPointer(mirrors).None? <==> forall i :: 0 <= i < |mirrors| ==> mirrors[i].pointer.None?
    ensures FirstPointer(mirrors).Some? ==>
      var (won, latest) := FirstPointer(mirrors).value;
      won < |mirrors| && mirrors[won].pointer == Some(latest)
      && forall i :: 0 <= i < won ==> mirrors[i].pointer.None?
  {
    if mirrors != [] {
      FirstPointerIsFirst(mirrors[1..]);
      if mirrors[0].pointer.None? {
        assert forall i :: 0 < i < |mirrors| ==> mirrors[i] == mirrors[1..][i - 1];
      }
    }
  }

  /** The mirror serves bytes that match the announced digest. */
  predicate Serves(c: Codec, m: Mirror, latest: Latest) {
    m.artifact(latest.version).Some? && c.digest(m.artifact(latest.version).value) == latest.sha256
  }

  /** The first mirror in `order` that serves them. */
  function FirstServing(c: Codec, mirrors: seq<Mirror>, latest: Latest, order: seq<nat>): (r: Option<nat>)
    requires forall k :: 0 <= k < |order| ==> order[k] < |mirrors|
    ensures r.Some? ==> r.value < |mirrors| && Serves(c, mirrors[r.value], latest)
  {
    if order == [] then None
    else if Serves(c, mirrors[order[0]], latest) then Some(order[0])
    else FirstServing(c, mirrors, latest, order[1..])
  }

  lemma {:induction false} FirstServingIsFirst(c: Codec, mirrors: seq<Mirror>, latest: Latest, order: seq<nat>)
    requires forall k :: 0 <= k < |order| ==> order[k] < |mirrors|
    ensures match FirstServing(c, mirrors, latest, order)
            case None => forall k :: 0 <= k < |order| ==> !Serves(c, mirrors[order[k]], latest)
            case Some(i) => exists k :: 0 <= k < |order| && order[k] == i && NoneServes(c, mirrors, latest, order[..k])
  {
    if order != [] {
      FirstServingIsFirst(c, mirrors, latest, order[1..]);
      if Serves(c, mirrors[order[0]], latest) {
        assert NoneServes(c, mirrors, latest, order[..0]);
      } else if FirstServing(c, mirrors, latest, order[1..]).Some? {
        var i := FirstServing(c, mirrors, latest, order[1..]).value;
        var k :| 0 <= k < |order[1..]| && order[1..][k] == i && NoneServes(c, mirrors, latest, order[1..][..k]);
        assert order[..k + 1] == [order[0]] + order[1..][..k];
        assert order[k + 1] == i && NoneServes(c, mirrors, latest, order[..k + 1]);
      } else {
        assert order == [order[0]] + order[1..];
      }
    }
  }

  ghost predicate NoneServes(c: Codec, mirrors: seq<Mirror>, latest: Latest, asked: seq<nat>)
  {
    forall k :: 0 <= k < |asked| ==> asked[k] < |mirrors| && !Serves(c, mirrors[asked[k]], latest)
  }

  // ---- the refresher

  class Catalog {
    var file: Option<Bytes>
    var stamp: Option<Stamp>
    var temp: Option<Bytes>

    constructor (file: Option<Bytes>, stamp: Option<Stamp>)
      ensures this.file == file && this.stamp == stamp
    {
      this.file, this.stamp, temp := file, stamp, None;
    }

    method FetchPointer(mirrors: seq<Mirror>) returns (found: Option<(nat, Latest)>)
      ensures found == FirstPointer(mirrors)
    {
      assert mirrors[0..] == mirrors;
      for i := 0 to |mirrors|
        invariant FirstPointer(mirrors) == match FirstPointer(mirrors[i..])
          case None => None
          case Some((k, latest)) => Some((i + k, latest))
      {
        assert mirrors[i..][1..] == mirrors[i + 1..];
        if mirrors[i].pointer.Some? {
          return Some((i, mirrors[i].pointer.value));
        }
      }
      return None;
    }

    /** Validate, write a temporary file, rename it into place. */
    method Install(c: Codec, disk: Disk, version: string, bytes: Bytes) returns (ok: bool)
      modifies this`file, this`temp
      ensures ok <==> c.parses(bytes) && disk.temp && disk.rename
      ensures file == if ok then Some(Stamped(version, bytes)) else old(file)
    {
      if !c.parses(bytes) {
        return false;
      }
      if !disk.temp {
        temp := Some([]); // a write that stopped part-way
        return false;
      }
      temp := Some(Stamped(version, bytes));
      if !disk.rename {
        return false;
      }
      file, temp := temp, None;
      return true;
    }

    method WriteStamp(disk: Disk, s: Stamp)
      modifies this`stamp
      ensures stamp == AfterWrite(disk, s, old(stamp))
    {
      if disk.stamp.Truncated? {
        stamp := None;
      } else if disk.stamp.Written? {
        stamp := Some(s);
      }
    }

    /** `asked` logs the mirrors whose artifact was fetched. */
    method ApplyPointer(c: Codec, disk: Disk, mirrors: seq<Mirror>, won: nat, latest: Latest, now: nat)
      returns (outcome: Outcome, ghost asked: seq<nat>)
      requires won < |mirrors|
      modifies this
      ensures outcome == PointerOutcome(c, disk, mirrors, won, latest, old(stamp), old(file))
      ensures asked <= Rotation(won, |mirrors|)
      ensures outcome.Offline? ==> file == old(file) && stamp == old(stamp)
      ensures outcome.Fresh? ==>
        file == old(file) && stamp == AfterWrite(disk, Stamp(latest.version, now), old(stamp))
      ensures outcome.Updated? ==>
        && stamp == AfterWrite(disk, Stamp(latest.version, now), old(stamp))
        && FirstServing(c, mirrors, latest, Rotation(won, |mirrors|)).Some?
        && file == Some(Stamped(latest.version,
             mirrors[FirstServing(c, mirrors, latest, Rotation(won, |mirrors|)).value].artifact(latest.version).value))
    {
      asked := [];
      if latest.minSchema > SUPPORTED_SCHEMA {
        return Offline(SchemaTooNew), asked;
      }
      if stamp.Some? && stamp.value.version == latest.version && Installed(c, file) {
        WriteStamp(disk, Stamp(latest.version, now));
        return Fresh(latest.version), asked;
      }
      var order := Rotation(won, |mirrors|);
      assert order[0..] == order;
      for k := 0 to |order|
        invariant file == old(file) && stamp == old(stamp)
        invariant asked == order[..k]
        invariant FirstServing(c, mirrors, latest, order) == FirstServing(c, mirrors, latest, order[k..])
      {
        assert order[k..][1..] == order[k + 1..];
        var mirror := mirrors[order[k]];
        asked := asked + [order[k]];
        var fetched := mirror.artifact(latest.version);
        if fetched.Some? {
          if c.digest(fetched.value) != latest.sha256 {
            continue;
          }
          var ok := Install(c, disk, latest.version, fetched.value);
          if !ok {
            return Offline(InstallFailed), asked;
          }
          WriteStamp(disk, Stamp(latest.version, now));
          return Updated(latest.version), asked;
        }
      }
      return Offline(ArtifactsFailed), asked;
    }

    method Refresh(s: Settings, c: Codec, disk: Disk, mirrors: seq<Mirror>, now: nat)
      returns (outcome: Outcome, ghost asked: seq<nat>)
      modifies this
      ensures outcome == RefreshOutcome(s, c, disk, mirrors, now, old(stamp), old(file))
      ensures NoDup(asked)
      ensures outcome.Offline? ==> file == old(file) && stamp == old(stamp)
      ensures !outcome.Updated? ==> file == old(file)
      ensures outcome.Updated? ==> GenuineFile(c, mirrors, outcome.version, file)
      ensures outcome.Updated? && SkipsComments(c) && Clean(outcome.version) ==> Installed(c, file)
    {
      asked := [];
      if !s.autoUpdate {
        return Offline(AutoUpdateOff), asked;
      }
      if CacheFresh(s, c, stamp, file, now) {
        return Fresh(stamp.value.version), asked;
      }
      if !disk.directory {
        return Offline(DirectoryUnusable), asked;
      }
      if !disk.lock {
        return Offline(LockHeld), asked;
      }
      var pointer := FetchPointer(mirrors);
      if pointer.None? {
        return Offline(EveryMirrorFailed), asked;
      }
      var (won, latest) := pointer.value;
      FirstPointerIsFirst(mirrors);
      outcome, asked := ApplyPointer(c, disk, mirrors, won, latest, now);
      RotationAsksEachOnce(won, |mirrors|);
      assert asked == Rotation(won, |mirrors|)[..|asked|];
      if outcome.Updated? {
        ghost var i := FirstServing(c, mirrors, latest, Rotation(won, |mirrors|)).value;
        assert Genuine(c, mirrors, latest, mirrors[i].artifact(latest.version).value);
        if SkipsComments(c) && Clean(latest.version) {
          CleanVersionLoadsIff(c, latest.version, mirrors[i].artifact(latest.version).value);
        }
      }
    }
  }

  /** The stamp that can be read after a write of `s`. */
  function AfterWrite(disk: Disk, s: Stamp, before: Option<Stamp>): Option<Stamp> {
    match disk.stamp
    case Written => Some(s)
    case NotBegun => before
    case Truncated => None
  }

  /** Bytes a mirror served, matching the digest of a pointer that parsed, of a schema this client
      reads, and that parse themselves. */
  ghost predicate Genuine(c: Codec, mirrors: seq<Mirror>, latest: Latest, bytes: Bytes) {
    && FirstPointer(mirrors).Some? && FirstPointer(mirrors).value.1 == latest
    && latest.minSchema <= SUPPORTED_SCHEMA
    && (exists i :: 0 <= i < |mirrors| && mirrors[i].artifact(latest.version) == Some(bytes))
    && c.digest(bytes) == latest.sha256
    && c.parses(bytes)
  }

  ghost predicate GenuineFile(c: Codec, mirrors: seq<Mirror>, version: string, file: Option<Bytes>) {
    exists latest, bytes :: Genuine(c, mirrors, latest, bytes) && latest.version == version
                            && file == Some(Stamped(version, bytes))
  }

  function PointerOutcome(c: Codec, disk: Disk, mirrors: seq<Mirror>, won: nat, latest: Latest,
                          stamp: Option<Stamp>, file: Option<Bytes>): Outcome
    requires won < |mirrors|
  {
    if latest.minSchema > SUPPORTED_SCHEMA then Offline(SchemaTooNew)
    else if stamp.Some? && stamp.value.version == latest.version && Installed(c, file) then Fresh(latest.version)
    else match FirstServing(c, mirrors, latest, Rotation(won, |mirrors|))
      case None => Offline(ArtifactsFailed)
      case Some(i) =>
        if c.parses(mirrors[i].artifact(latest.version).value) && disk.temp && disk.rename
        then Updated(latest.version) else Offline(InstallFailed)
  }

  function RefreshOutcome(s: Settings, c: Codec, disk: Disk, mirrors: seq<Mirror>, now: nat,
                          stamp: Option<Stamp>, file: Option<Bytes>): Outcome
  {
    if !s.autoUpdate then Offline(AutoUpdateOff)
    else if CacheFresh(s, c, stamp, file, now) then Fresh(stamp.value.version)
    else if !disk.directory then Offline(DirectoryUnusable)
    else if !disk.lock then Offline(LockHeld)
    else match FirstPointer(mirrors)
      case None => Offline(EveryMirrorFailed)
      case Some((won, latest)) => PointerOutcome(c, disk, mirrors, won, latest, stamp, file)
  }

  /** The first mirror that serves the announced bytes, asked from `won` on and round again, serves
      bytes that parse. */
  ghost predicate FirstServedParses(c: Codec, mirrors: seq<Mirror>, won: nat, latest: Latest)
    requires won < |mirrors|
  {
    exists k :: 0 <= k < |mirrors| && NoneServes(c, mirrors, latest, Rotation(won, |mirrors|)[..k])
                && Serves(c, mirrors[Rotation(won, |mirrors|)[k]], latest)
                && c.parses(mirrors[Rotation(won, |mirrors|)[k]].artifact(latest.version).value)
  }

  lemma FirstServedParsesIff(c: Codec, mirrors: seq<Mirror>, won: nat, latest: Latest)
    requires won < |mirrors|
    ensures FirstServedParses(c, mirrors, won, latest) <==>
            match FirstServing(c, mirrors, latest, Rotation(won, |mirrors|))
            case None => false
            case Some(i) => c.parses(mirrors[i].artifact(latest.version).value)
  {
    var order := Rotation(won, |mirrors|);
    FirstServingIsFirst(c, mirrors, latest, order);
    if FirstServedParses(c, mirrors, won, latest) {
      var k :| 0 <= k < |mirrors| && NoneServes(c, mirrors, latest, order[..k])
        && Serves(c, mirrors[order[k]], latest) && c.parses(mirrors[order[k]].artifact(latest.version).value);
      var i := FirstServing(c, mirrors, latest, order).value;
      var l :| 0 <= l < |order| && order[l] == i && NoneServes(c, mirrors, latest, order[..l]);
      NoneServesBefore(c, mirrors, latest, order, k);
      NoneServesBefore(c, mirrors, latest, order, l);
      assert k == l;
    }
  }

  lemma NoneServesBefore(c: Codec, mirrors: seq<Mirror>, latest: Latest, order: seq<nat>, k: nat)
    requires k <= |order| && NoneServes(c, mirrors, latest, order[..k])
    ensures forall j :: 0 <= j < k ==> order[j] < |mirrors| && !Serves(c, mirrors[order[j]], latest)
  {
    forall j | 0 <= j < k
      ensures order[j] < |mirrors| && !Serves(c, mirrors[order[j]], latest)
    {
      assert order[..k][j] == order[j];
    }
  }

  /** Exactly when a refresh that gets to the network installs: the first pointer that parses is of a
      readable schema and not already installed, the first mirror to serve its bytes serves bytes that
      parse, and the local writes go through. */
  lemma UpdatedIff(s: Settings, c: Codec, disk: Disk, mirrors: seq<Mirror>, now: nat,
                   stamp: Option<Stamp>, file: Option<Bytes>, won: nat, latest: Latest)
    requires s.autoUpdate && disk.directory && disk.lock && !CacheFresh(s, c, stamp, file, now)
    requires FirstPointer(mirrors) == Some((won, latest))
    ensures RefreshOutcome(s, c, disk, mirrors, now, stamp, file) == Updated(latest.version) <==>
      && latest.minSchema <= SUPPORTED_SCHEMA
      && !(stamp.Some? && stamp.value.version == latest.version && Installed(c, file))
      && FirstServedParses(c, mirrors, won, latest)
      && disk.temp && disk.rename
  {
    FirstServedParsesIff(c, mirrors, won, latest);
  }

  /** Whichever mirror serves genuine bytes, the refresh gets to it: when every mirror that serves the
      announced digest serves bytes that parse, one that serves at all is enough. */
  lemma OneServingMirrorIsEnough(c: Codec, mirrors: seq<Mirror>, won: nat, latest: Latest, i: nat)
    requires won < |mirrors| && i < |mirrors| && Serves(c, mirrors[i], latest)
    requires forall j :: 0 <= j < |mirrors| && Serves(c, mirrors[j], latest) ==>
               c.parses(mirrors[j].artifact(latest.version).value)
    ensures FirstServedParses(c, mirrors, won, latest)
  {
    var order := Rotation(won, |mirrors|);
    FirstServingIsFirst(c, mirrors, latest, order);
    RotationAsksEachOnce(won, |mirrors|);
    assert i in order;
    FirstServedParsesIff(c, mirrors, won, latest);
  }

  // ---- the stamped file loads as the artifact did

  /** Text a comment may hold: no control character but the tab. */
  predicate Clean(text: string) {
    forall i :: 0 <= i < |text| ==> (' ' <= text[i] && text[i] != '\U{7F}') || text[i] == '\t'
  }

  /** The parser passes over comments and blank lines. */
  ghost predicate SkipsComments(c: Codec) {
    && (forall line, rest {:trigger c.parses("#" + line + "\n" + rest)} :: Clean(line) ==>
          c.parses("#" + line + "\n" + rest) == c.parses(rest))
    && (forall rest {:trigger c.parses("\n" + rest)} :: c.parses("\n" + rest) == c.parses(rest))
  }

  lemma HeaderIsClean()
    ensures Clean(HEADER) && Clean(HEADER_REST)
  {
    assert Clean(" generated by") && Clean(" tabit's catalog");
    assert Clean(" manager (version ");
  }

  lemma AdviceIsClean()
    ensures Clean(ADVICE)
  {
    assert Clean(" overwritten; override");
    assert Clean(" a model or provider");
    assert Clean(" in providers.toml") && Clean(" instead.");
  }

  /** Whatever ends the first line of the header, what comes after it decides. */
  lemma FirstLineIsSkipped(c: Codec, line: string, rest: Bytes)
    requires SkipsComments(c) && Clean(line)
    ensures c.parses("#" + HEADER + line + "\n" + rest) == c.parses(rest)
  {
    HeaderIsClean();
    var whole := HEADER + line;
    assert "#" + HEADER + line + "\n" + rest == "#" + whole + "\n" + rest;
  }

  lemma AdviceIsSkipped(c: Codec, body: Bytes)
    requires SkipsComments(c)
    ensures c.parses(Advised(body)[1..]) == c.parses(body) && Advised(body) == "\n" + Advised(body)[1..]
  {
    AdviceIsClean();
    assert Advised(body)[1..] == "#" + ADVICE + "\n" + ("\n" + body);
  }

  /** A version without control characters: the file loads exactly when the artifact parses. */
  lemma CleanVersionLoadsIff(c: Codec, version: string, body: Bytes)
    requires SkipsComments(c) && Clean(version)
    ensures c.parses(Stamped(version, body)) <==> c.parses(body)
  {
    HeaderIsClean();
    AdviceIsSkipped(c, body);
    hide Advised;
    var line, rest := version + HEADER_REST, Advised(body)[1..];
    assert Stamped(version, body) == "#" + HEADER + line + "\n" + rest;
    FirstLineIsSkipped(c, line, rest);
  }

  /** A version with a line break: what follows the break has to parse, with the rest of the header. */
  lemma BrokenVersionLoadsIff(c: Codec, line: string, more: string, body: Bytes)
    requires SkipsComments(c) && Clean(line)
    ensures c.parses(Stamped(line + "\n" + more, body)) <==>
            c.parses(more + HEADER_REST + Advised(body))
  {
    hide Advised;
    Regroup("#" + HEADER, line, more, HEADER_REST, Advised(body));
    FirstLineIsSkipped(c, line, more + HEADER_REST + Advised(body));
  }

  lemma Regroup(header: string, line: string, more: string, a: string, b: string)
    ensures header + (line + "\n" + more) + a + b == header + line + "\n" + (more + a + b)
  {
  }

  /** A parser that refuses a line that starts with a parenthesis, as TOML does. */
  function NoParenthesis(text: string, starts: bool): bool {
    text == "" || (!(starts && text[0] == ')') && NoParenthesis(text[1..], text[0] == '\n'))
  }

  lemma {:induction false} MidLine(line: string, rest: string)
    requires Clean(line)
    ensures NoParenthesis(line + "\n" + rest, false) == NoParenthesis(rest, true)
  {
    var whole := line + "\n" + rest;
    if line == "" {
      assert whole[1..] == rest;
    } else {
      assert whole[1..] == line[1..] + "\n" + rest && Clean(line[1..]);
      MidLine(line[1..], rest);
    }
  }

  /** A version with a line break, under which a file is put in place that does not load. */
  lemma BrokenVersionDoesNotLoad(body: Bytes)
    ensures var c := Codec(bytes => "", text => NoParenthesis(text, true));
      SkipsComments(c) && !c.parses(Stamped("1\n", body))
  {
    var c := Codec(bytes => "", text => NoParenthesis(text, true));
    forall line, rest | Clean(line)
      ensures c.parses("#" + line + "\n" + rest) == c.parses(rest)
    {
      var whole := "#" + line + "\n" + rest;
      assert whole[1..] == line + "\n" + rest;
      MidLine(line, rest);
    }
    forall rest
      ensures c.parses("\n" + rest) == c.parses(rest)
    {
      assert ("\n" + rest)[1..] == rest;
    }
    assert "1" + "\n" + "" == "1\n";
    BrokenVersionLoadsIff(c, "1", "", body);
  }

  // ---- the order, the freshness, and the reasons, spelled out

  /** The fallback order begins with the mirror of the pointer and goes once around the list. */
  lemma RotationGoesAround(won: nat, n: nat)
    requires won < n
    ensures Rotation(won, n)[0] == won
    ensures forall k :: 0 <= k < n - 1 ==>
      Rotation(won, n)[k + 1] == if Rotation(won, n)[k] == n - 1 then 0 else Rotation(won, n)[k] + 1
  {
  }

  /** A catalog whose file loads, stamped `age` seconds ago, is used without asking anybody exactly while the
      age is below the time to live; a stamp of the future is not. Once it is not fresh, what the mirrors
      say decides: with no pointer the refresh is offline. */
  lemma FreshWhileYoung(s: Settings, c: Codec, disk: Disk, mirrors: seq<Mirror>, now: nat, stamp: Option<Stamp>,
                        file: Option<Bytes>)
    requires s.autoUpdate
    ensures var young := && stamp.Some? && stamp.value.fetchedAt <= now
                         && now - stamp.value.fetchedAt < s.ttlHours * 3600
                         && now - stamp.value.fetchedAt < 0xFFFF_FFFF_FFFF_FFFF;
      var o := RefreshOutcome(s, c, disk, mirrors, now, stamp, file);
      && (young && file.Some? && c.parses(file.value) ==> o == Fresh(stamp.value.version))
      && (!(young && file.Some? && c.parses(file.value)) && disk.directory && disk.lock && NobodyPoints(mirrors) ==>
            o == Offline(EveryMirrorFailed))
  {
    FirstPointerIsFirst(mirrors);
  }

  /** So a refresh that leaves a stamp and a file that loads is not repeated within the time to live. */
  lemma RefreshedStaysFresh(s: Settings, c: Codec, disk: Disk, mirrors: seq<Mirror>, at: nat, later: nat,
                            version: string, file: Option<Bytes>)
    requires s.autoUpdate && file.Some? && c.parses(file.value)
    requires at <= later && later - at < s.ttlHours * 3600 && later - at < 0xFFFF_FFFF_FFFF_FFFF
    ensures RefreshOutcome(s, c, disk, mirrors, later, Some(Stamp(version, at)), file) == Fresh(version)
  {
    FreshWhileYoung(s, c, disk, mirrors, later, Some(Stamp(version, at)), file);
  }

  /** Why a refresh stays offline: the first of these that holds. */
  lemma OfflineBecause(s: Settings, c: Codec, disk: Disk, mirrors: seq<Mirror>, now: nat, stamp: Option<Stamp>,
                       file: Option<Bytes>, won: nat)
    requires won < |mirrors| && mirrors[won].pointer.Some? && forall i :: 0 <= i < won ==> mirrors[i].pointer.None?
    requires s.autoUpdate && !CacheFresh(s, c, stamp, file, now)
    ensures var o, latest := RefreshOutcome(s, c, disk, mirrors, now, stamp, file), mirrors[won].pointer.value;
      if !disk.directory then o == Offline(DirectoryUnusable)
      else if !disk.lock then o == Offline(LockHeld)
      else if latest.minSchema > 1 then o == Offline(SchemaTooNew)
      else if stamp.Some? && stamp.value.version == latest.version && file.Some? && c.parses(file.value) then
        o == Fresh(latest.version)
      else if NobodyServes(c, mirrors, latest) then o == Offline(ArtifactsFailed)
      else if FirstServedParses(c, mirrors, won, latest) && disk.temp && disk.rename then o == Updated(latest.version)
      else o == Offline(InstallFailed)
  {
    FirstPointerIsFirst(mirrors);
    var (i, latest) := FirstPointer(mirrors).value;
    assert i == won by {
      assert !(i < won) && !(won < i);
    }
    FirstServedParsesIff(c, mirrors, won, latest);
    FirstServingIsFirst(c, mirrors, latest, Rotation(won, |mirrors|));
    RotationAsksEachOnce(won, |mirrors|);
    if FirstServing(c, mirrors, latest, Rotation(won, |mirrors|)).None? {
      forall k | 0 <= k < |mirrors|
        ensures !Serves(c, mirrors[k], latest)
      {
        assert k in Rotation(won, |mirrors|);
      }
    }
  }

  predicate NobodyPoints(mirrors: seq<Mirror>) {
    forall i :: 0 <= i < |mirrors| ==> mirrors[i].pointer.None?
  }

  /** No mirror answers with bytes of the announced digest. */
  ghost predicate NobodyServes(c: Codec, mirrors: seq<Mirror>, latest: Latest) {
    forall k :: 0 <= k < |mirrors| ==>
      var bytes := mirrors[k].artifact(latest.version); bytes.None? || c.digest(bytes.value) != latest.sha256
  }
}
