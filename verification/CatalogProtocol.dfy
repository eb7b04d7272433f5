/** Any number of refreshers over the same catalog files (`tabit-app/src/catalog.rs`): a lock the
    operating system releases on any exit, a temporary file written piece by piece, a rename, and a
    stamp, with crashes between any two steps. */
module CatalogProtocol {
  import opened Wrappers
  import opened CatalogRefresh

  type Pid = nat

  /** Where a refresher stands. From `Locked` up to its end it holds the lock; `Stamping` carries the
      outcome it will end with. */
  datatype Pc =
    | Starting
    | Stale
    | Locked
    | HasPointer(latest: Latest)
    | Writing(latest: Latest, bytes: Bytes, written: nat)
    | Stamping(latest: Latest, ends: Outcome)
    | Done(outcome: Outcome)
    | Crashed

  datatype StampFile = Missing | Torn | Whole(stamp: Stamp)

  /** `wrote` says, for every refresher, whether it has changed the catalog file or the stamp. */
  datatype World = World(
    file: Option<Bytes>,
    temp: Option<Bytes>,
    stamp: StampFile,
    lock: Option<Pid>,
    procs: map<Pid, Pc>,
    wrote: set<Pid>)
  {
    function Readable(): Option<Stamp> {
      if stamp.Whole? then Some(stamp.stamp) else None
    }

    predicate At(p: Pid, pc: Pc) {
      p in procs && procs[p] == pc
    }
  }

  predicate Holding(pc: Pc) {
    pc.Locked? || pc.HasPointer? || pc.Writing? || pc.Stamping?
  }

  /** What a refresher may put in place: bytes that match their pointer's digest and parse, of a schema
      this client reads. */
  ghost predicate Acceptable(c: Codec, latest: Latest, bytes: Bytes) {
    latest.minSchema <= SUPPORTED_SCHEMA && c.digest(bytes) == latest.sha256 && c.parses(bytes)
  }

  // ---- the steps

  datatype Step =
    | Join
    | FindFresh(settings: Settings, now: nat)
    | FindStale(settings: Settings, now: nat)
    | TakeLock
    | GiveUp(reason: Reason)
    | Pointer(latest: Latest)
    | Confirm
    | OpenTemp(bytes: Bytes)
    | WriteMore(upTo: nat)
    | Rename
    | TearStamp
    | FinishStamp(now: nat)
    | SkipStamp
    | Crash

  function Moved(w: World, p: Pid, pc: Pc): World {
    w.(procs := w.procs[p := pc])
  }

  function Left(w: World, p: Pid, pc: Pc): World {
    Moved(w, p, pc).(lock := if w.lock == Some(p) then None else w.lock)
  }

  ghost predicate Next(c: Codec, w: World, w': World, p: Pid, step: Step) {
    if step.Join? then p !in w.procs && w' == Moved(w, p, Starting)
    else p in w.procs && Goes(c, w, w', p, w.procs[p], step)
  }

  ghost predicate Goes(c: Codec, w: World, w': World, p: Pid, pc: Pc, step: Step)
    requires p in w.procs && pc == w.procs[p]
  {
    match step
    case Join => false
    case FindFresh(settings, now) =>
      // the one look at the cache, before the lock
      pc.Starting? && settings.autoUpdate && CacheFresh(settings, c, w.Readable(), w.file, now)
      && w' == Moved(w, p, Done(Fresh(w.stamp.stamp.version)))
    case FindStale(settings, now) =>
      pc.Starting? && settings.autoUpdate && !CacheFresh(settings, c, w.Readable(), w.file, now)
      && w' == Moved(w, p, Stale)
    case TakeLock =>
      pc.Stale? && w.lock.None? && w' == Moved(w, p, Locked).(lock := Some(p))
    case GiveUp(reason) =>
      // updates off, the lock taken, every mirror failed, the schema too new, no artifact matched, or a
      // local write failed
      (pc.Starting? || pc.Stale? || pc.Locked? || pc.HasPointer? || pc.Writing?)
      && w' == Left(w, p, Done(Offline(reason)))
    case Pointer(latest) =>
      pc.Locked? && latest.minSchema <= SUPPORTED_SCHEMA && w' == Moved(w, p, HasPointer(latest))
    case Confirm =>
      // the same version, stamped and installed: only the stamp is renewed
      pc.HasPointer? && w.stamp.Whole? && w.stamp.stamp.version == pc.latest.version && Installed(c, w.file)
      && w' == Moved(w, p, Stamping(pc.latest, Fresh(pc.latest.version)))
    case OpenTemp(bytes) =>
      pc.HasPointer? && Acceptable(c, pc.latest, bytes)
      && w' == Moved(w, p, Writing(pc.latest, bytes, 0)).(temp := Some([]))
    case WriteMore(upTo) =>
      pc.Writing? && pc.written <= upTo <= |Body(c, pc)|
      && w' == Moved(w, p, pc.(written := upTo)).(temp := Some(Body(c, pc)[..upTo]))
    case Rename =>
      pc.Writing? && pc.written == |Body(c, pc)|
      && w' == Moved(w, p, Stamping(pc.latest, Updated(pc.latest.version))).(file := w.temp, temp := None,
                                                                            wrote := w.wrote + {p})
    case TearStamp =>
      // the stamp is written in place
      pc.Stamping? && w' == w.(stamp := Torn, wrote := w.wrote + {p})
    case FinishStamp(now) =>
      pc.Stamping? && w' == Left(w, p, Done(pc.ends)).(stamp := Whole(Stamp(pc.latest.version, now)),
                                                       wrote := w.wrote + {p})
    case SkipStamp =>
      // a stamp that cannot be written is let go, as it stands
      pc.Stamping? && w' == Left(w, p, Done(pc.ends))
    case Crash =>
      !pc.Done? && !pc.Crashed? && w' == Left(w, p, Crashed)
  }

  function Body(c: Codec, pc: Pc): Bytes
    requires pc.Writing?
  {
    Stamped(pc.latest.version, pc.bytes)
  }

  ghost predicate Init(w: World) {
    w.procs == map[] && w.lock.None? && w.wrote == {}
  }

  // ---- the invariant

  ghost predicate Inv(c: Codec, w: World) {
    && (forall p {:trigger ProcSound(c, w, p)} :: p in w.procs ==> ProcSound(c, w, p))
    && (w.lock.Some? ==> w.lock.value in w.procs && Holding(w.procs[w.lock.value]))
    && (forall p :: p in w.wrote ==> p in w.procs)
  }

  /** The holder of the lock is the one under way; it alone writes the temporary file, and only bytes it
      may put in place; who ends offline has written nothing. */
  ghost predicate ProcSound(c: Codec, w: World, p: Pid)
    requires p in w.procs
  {
    var pc := w.procs[p];
    && (Holding(pc) <==> w.lock == Some(p))
    && (pc.HasPointer? ==> pc.latest.minSchema <= SUPPORTED_SCHEMA)
    && (pc.Writing? ==>
          && Acceptable(c, pc.latest, pc.bytes)
          && pc.written <= |Body(c, pc)| && w.temp == Some(Body(c, pc)[..pc.written]))
    && (pc.Stamping? ==> !pc.ends.Offline?)
    && (pc.Starting? || pc.Stale? || pc.Locked? || pc.HasPointer? || pc.Writing? || (pc.Done? && pc.outcome.Offline?)
        ==> p !in w.wrote)
  }

  lemma InitIsSound(c: Codec, w: World)
    requires Init(w)
    ensures Inv(c, w)
  {
  }

  /** No step of anyone, a crash included, breaks the invariant. */
  lemma StepIsSound(c: Codec, w: World, w': World, p: Pid, step: Step)
    requires Inv(c, w) && Next(c, w, w', p, step)
    ensures Inv(c, w')
  {
    if p in w.procs {
      assert ProcSound(c, w, p);
    }
    forall q | q in w'.procs
      ensures ProcSound(c, w', q)
    {
      if q != p {
        assert ProcSound(c, w, q);
      }
    }
  }

  // ---- runs

  datatype Move = Move(pid: Pid, step: Step)

  /** A run: worlds linked by steps of whichever refresher moves next. */
  ghost predicate IsRun(c: Codec, worlds: seq<World>, moves: seq<Move>) {
    && |worlds| == |moves| + 1
    && Init(worlds[0])
    && forall i :: 0 <= i < |moves| ==> Next(c, worlds[i], worlds[i + 1], moves[i].pid, moves[i].step)
  }

  lemma {:induction false} RunIsSound(c: Codec, worlds: seq<World>, moves: seq<Move>, i: nat)
    requires IsRun(c, worlds, moves) && i < |worlds|
    ensures Inv(c, worlds[i])
  {
    if i == 0 {
      InitIsSound(c, worlds[0]);
    } else {
      RunIsSound(c, worlds, moves, i - 1);
      StepIsSound(c, worlds[i - 1], worlds[i], moves[i - 1].pid, moves[i - 1].step);
    }
  }

  /** By move `i`, refresher `p` has heard `latest` announced. */
  ghost predicate Heard(moves: seq<Move>, i: nat, p: Pid, latest: Latest) {
    exists a :: 0 <= a < i <= |moves| && moves[a] == Move(p, Pointer(latest))
  }

  /** By move `i`, `p` has heard `latest` announced and then begun to write `bytes`. */
  ghost predicate Began(moves: seq<Move>, i: nat, p: Pid, latest: Latest, bytes: Bytes) {
    exists b: nat :: b < i <= |moves| && moves[b] == Move(p, OpenTemp(bytes)) && Heard(moves, b, p, latest)
  }

  /** What a refresher works on, it was told or was served. */
  lemma {:induction false} WorkIsAnnounced(c: Codec, worlds: seq<World>, moves: seq<Move>, i: nat, p: Pid)
    requires IsRun(c, worlds, moves) && i < |worlds| && p in worlds[i].procs
    ensures worlds[i].procs[p].HasPointer? ==> Heard(moves, i, p, worlds[i].procs[p].latest)
    ensures worlds[i].procs[p].Writing? ==> Began(moves, i, p, worlds[i].procs[p].latest, worlds[i].procs[p].bytes)
  {
    if i > 0 {
      var w, m := worlds[i - 1], moves[i - 1];
      assert Next(c, w, worlds[i], m.pid, m.step);
      if p in w.procs {
        WorkIsAnnounced(c, worlds, moves, i - 1, p);
      }
      WorkGoesOn(c, w, worlds[i], m, p);
    }
  }

  lemma WorkGoesOn(c: Codec, w: World, w': World, m: Move, p: Pid)
    requires Next(c, w, w', m.pid, m.step) && p in w'.procs
    ensures var pc := w'.procs[p];
      pc.HasPointer? ==> w.At(p, pc) || m == Move(p, Pointer(pc.latest))
    ensures var pc := w'.procs[p];
      pc.Writing? ==>
        || (p in w.procs && w.procs[p].Writing? && w.procs[p].latest == pc.latest && w.procs[p].bytes == pc.bytes)
        || (w.At(p, HasPointer(pc.latest)) && m == Move(p, OpenTemp(pc.bytes)))
  {
  }

  /** At move `d` some refresher put in place an artifact whose bytes match the digest of a readable
      pointer it had been announced before, and parse. */
  ghost predicate PutAt(c: Codec, moves: seq<Move>, d: nat, latest: Latest, bytes: Bytes) {
    d < |moves| && moves[d].step.Rename? && Acceptable(c, latest, bytes) && Began(moves, d, moves[d].pid, latest, bytes)
  }

  /** The file is as it was before everything, or the artifact put in place last. */
  ghost predicate FileSound(c: Codec, worlds: seq<World>, moves: seq<Move>, i: nat)
    requires worlds != [] && i < |worlds|
  {
    || (worlds[i].file == worlds[0].file && NoRename(moves, 0, i))
    || exists d, latest, bytes :: IsPutAt(c, worlds[i].file, moves, i, d, latest, bytes)
  }

  ghost predicate IsPutAt(c: Codec, file: Option<Bytes>, moves: seq<Move>, i: nat, d: nat, latest: Latest,
                          bytes: Bytes) {
    && d < i && PutAt(c, moves, d, latest, bytes) && NoRename(moves, d + 1, i)
    && file == Some(Stamped(latest.version, bytes))
  }

  /** At every moment of every interleaving, crashes included, a reader finds the file as it was before,
      or, whole, the artifact that was put in place last, which a pointer announced. */
  lemma {:induction false} ReadersNeverSeeATornCatalog(c: Codec, worlds: seq<World>, moves: seq<Move>, i: nat)
    requires IsRun(c, worlds, moves) && i < |worlds|
    ensures FileSound(c, worlds, moves, i)
  {
    if i > 0 {
      var m := moves[i - 1];
      assert Next(c, worlds[i - 1], worlds[i], m.pid, m.step);
      if m.step.Rename? {
        RenamePuts(c, worlds, moves, i - 1);
      } else {
        ReadersNeverSeeATornCatalog(c, worlds, moves, i - 1);
        OthersKeepTheFile(c, worlds, moves, i - 1);
      }
    }
  }

  lemma RenamePuts(c: Codec, worlds: seq<World>, moves: seq<Move>, i: nat)
    requires IsRun(c, worlds, moves) && i < |moves| && moves[i].step.Rename?
    ensures FileSound(c, worlds, moves, i + 1)
  {
    var w, m := worlds[i], moves[i];
    assert Next(c, w, worlds[i + 1], m.pid, m.step);
    RunIsSound(c, worlds, moves, i);
    WorkIsAnnounced(c, worlds, moves, i, m.pid);
    assert ProcSound(c, w, m.pid);
    var pc := w.procs[m.pid];
    hide IsRun, Next, Inv, Began, Holding, FileSound;
    assert Body(c, pc)[..|Body(c, pc)|] == Body(c, pc);
    assert IsPutAt(c, worlds[i + 1].file, moves, i + 1, i, pc.latest, pc.bytes);
    PutIsSound(c, worlds, moves, i + 1, i, pc.latest, pc.bytes);
  }

  lemma PutIsSound(c: Codec, worlds: seq<World>, moves: seq<Move>, i: nat, d: nat, latest: Latest, bytes: Bytes)
    requires i < |worlds| && IsPutAt(c, worlds[i].file, moves, i, d, latest, bytes)
    ensures FileSound(c, worlds, moves, i)
  {
  }

  lemma OthersKeepTheFile(c: Codec, worlds: seq<World>, moves: seq<Move>, i: nat)
    requires i < |moves| && i + 1 < |worlds| && FileSound(c, worlds, moves, i)
    requires Next(c, worlds[i], worlds[i + 1], moves[i].pid, moves[i].step) && !moves[i].step.Rename?
    ensures FileSound(c, worlds, moves, i + 1)
  {
    assert worlds[i + 1].file == worlds[i].file;
    hide Next, PutAt;
    if !NoRename(moves, 0, i) || worlds[i].file != worlds[0].file {
      var d, latest, bytes :| IsPutAt(c, worlds[i].file, moves, i, d, latest, bytes);
      assert IsPutAt(c, worlds[i + 1].file, moves, i + 1, d, latest, bytes);
    }
  }

  /** A catalog that loads goes on loading, as long as every version announced is clean. */
  lemma CatalogStaysInstalled(c: Codec, worlds: seq<World>, moves: seq<Move>, i: nat)
    requires IsRun(c, worlds, moves) && i < |worlds| && SkipsComments(c)
    requires Installed(c, worlds[0].file)
    requires forall k :: 0 <= k < |moves| && moves[k].step.Pointer? ==> Clean(moves[k].step.latest.version)
    ensures Installed(c, worlds[i].file)
  {
    hide IsRun, SkipsComments, Clean, Stamped, NoRename;
    ReadersNeverSeeATornCatalog(c, worlds, moves, i);
    if worlds[i].file != worlds[0].file {
      var d: nat, latest, bytes :| IsPutAt(c, worlds[i].file, moves, i, d, latest, bytes);
      var b: nat :| b < d && moves[b] == Move(moves[d].pid, OpenTemp(bytes)) && Heard(moves, b, moves[d].pid, latest);
      var a :| 0 <= a < b && moves[a] == Move(moves[d].pid, Pointer(latest));
      assert moves[a].step.Pointer?;
      CleanVersionLoadsIff(c, latest.version, bytes);
    }
  }

  ghost predicate NoRename(moves: seq<Move>, from: nat, to: nat) {
    forall k :: from <= k < to && k < |moves| ==> !moves[k].step.Rename?
  }

  /** A refresher that ended offline changed neither the catalog nor the stamp. */
  lemma OfflineWroteNothing(c: Codec, worlds: seq<World>, moves: seq<Move>, i: nat, p: Pid)
    requires IsRun(c, worlds, moves) && i < |worlds|
    requires p in worlds[i].procs && worlds[i].procs[p].Done? && worlds[i].procs[p].outcome.Offline?
    ensures p !in worlds[i].wrote
  {
    RunIsSound(c, worlds, moves, i);
    assert ProcSound(c, worlds[i], p);
  }

  /** Refreshers are serialized: two never hold on to the files at once. */
  lemma OneRefresherAtATime(c: Codec, worlds: seq<World>, moves: seq<Move>, i: nat, p: Pid, q: Pid)
    requires IsRun(c, worlds, moves) && i < |worlds|
    requires p in worlds[i].procs && q in worlds[i].procs
    requires Holding(worlds[i].procs[p]) && Holding(worlds[i].procs[q])
    ensures p == q
  {
    RunIsSound(c, worlds, moves, i);
    assert ProcSound(c, worlds[i], p) && ProcSound(c, worlds[i], q);
  }

  /** `wrote` is the truth: only a refresher in it has changed the catalog or the stamp. */
  lemma OnlyWritersChangeFiles(c: Codec, w: World, w': World, p: Pid, step: Step)
    requires Next(c, w, w', p, step) && (w'.file != w.file || w'.stamp != w.stamp)
    ensures p in w'.wrote && w.wrote <= w'.wrote
  {
  }

  /** Nobody ever finds the lock held by the dead: whoever holds it is alive and under way. */
  lemma LockIsNeverStuck(c: Codec, worlds: seq<World>, moves: seq<Move>, i: nat)
    requires IsRun(c, worlds, moves) && i < |worlds| && worlds[i].lock.Some?
    ensures worlds[i].lock.value in worlds[i].procs
    ensures !worlds[i].procs[worlds[i].lock.value].Crashed? && !worlds[i].procs[worlds[i].lock.value].Done?
  {
    RunIsSound(c, worlds, moves, i);
  }

  // ---- the look at the cache that is not repeated under the lock

  predicate Writes(step: Step) {
    step.Rename? || step.TearStamp? || step.FinishStamp?
  }

  /** Move `m` is the last that touches catalog or stamp between `k` and `i`. */
  ghost predicate LastWrite(moves: seq<Move>, k: nat, m: nat, i: nat) {
    k < m < i <= |moves| && Writes(moves[m].step) && forall l :: m < l < i ==> !Writes(moves[l].step)
  }

  lemma {:induction false} NothingWritten(c: Codec, worlds: seq<World>, moves: seq<Move>, k: nat, i: nat)
    requires IsRun(c, worlds, moves) && k <= i < |worlds|
    requires forall l :: k <= l < i ==> !Writes(moves[l].step)
    ensures worlds[i].file == worlds[k].file && worlds[i].stamp == worlds[k].stamp
  {
    if k < i {
      NothingWritten(c, worlds, moves, k, i - 1);
      var m := moves[i - 1];
      assert Next(c, worlds[i - 1], worlds[i], m.pid, m.step);
    }
  }

  lemma {:induction false} SomeLastWrite(moves: seq<Move>, k: nat, i: nat)
    requires k < i <= |moves|
    ensures (forall l :: k < l < i ==> !Writes(moves[l].step)) || exists m: nat :: LastWrite(moves, k, m, i)
  {
    if k + 1 < i {
      if Writes(moves[i - 1].step) {
        assert LastWrite(moves, k, i - 1, i);
      } else {
        var j := i - 1;
        SomeLastWrite(moves, k, j);
        if m: nat :| LastWrite(moves, k, m, j) {
          assert LastWrite(moves, k, m, i);
        }
      }
    }
  }

  /** Who has looked never looks again. */
  lemma {:induction false} LooksOnce(c: Codec, worlds: seq<World>, moves: seq<Move>, k: nat, i: nat)
    requires IsRun(c, worlds, moves) && k < i < |worlds| && moves[k].step.FindStale?
    ensures moves[k].pid in worlds[i].procs && !worlds[i].procs[moves[k].pid].Starting?
  {
    var m := moves[i - 1];
    assert Next(c, worlds[i - 1], worlds[i], m.pid, m.step);
    if k < i - 1 {
      LooksOnce(c, worlds, moves, k, i - 1);
    }
  }

  /** Between its look and the lock a refresher writes nothing. */
  lemma {:induction false} WaitsQuietly(c: Codec, worlds: seq<World>, moves: seq<Move>, k: nat, l: nat, i: nat)
    requires IsRun(c, worlds, moves) && k < l <= i < |moves|
    requires moves[k].step.FindStale? && moves[i] == Move(moves[k].pid, TakeLock)
    ensures worlds[l].At(moves[k].pid, Stale) && !(moves[l].pid == moves[k].pid && Writes(moves[l].step))
    decreases i - l
  {
    var m := moves[l];
    assert Next(c, worlds[l], worlds[l + 1], m.pid, m.step);
    if l < i {
      WaitsQuietly(c, worlds, moves, k, l + 1, i);
      LooksOnce(c, worlds, moves, k, l);
    }
  }

  /** A refresher takes the lock, and goes on to the network, over a cache that is fresh by the clock it
      looked with, exactly when the last write since its look, another's, left it so. */
  lemma LockOnFreshCacheIff(c: Codec, worlds: seq<World>, moves: seq<Move>, k: nat, i: nat)
    requires IsRun(c, worlds, moves) && k < i < |moves|
    requires moves[k].step.FindStale? && moves[i] == Move(moves[k].pid, TakeLock)
    ensures FreshFor(c, worlds[i], moves[k].step) <==>
            exists m: nat ::
              LastWrite(moves, k, m, i) && moves[m].pid != moves[k].pid && FreshFor(c, worlds[m + 1], moves[k].step)
  {
    hide Next, CacheFresh;
    SomeLastWrite(moves, k, i);
    if m: nat :| LastWrite(moves, k, m, i) {
      NothingWritten(c, worlds, moves, m + 1, i);
      WaitsQuietly(c, worlds, moves, k, m, i);
      assert forall l :: LastWrite(moves, k, l, i) ==> l == m;
    } else {
      NothingWritten(c, worlds, moves, k + 1, i);
      StaleNow(c, worlds, moves, k);
    }
  }

  /** The cache is fresh by the settings and the clock of that look. */
  ghost predicate FreshFor(c: Codec, w: World, look: Step)
    requires look.FindStale?
  {
    CacheFresh(look.settings, c, w.Readable(), w.file, look.now)
  }

  lemma StaleNow(c: Codec, worlds: seq<World>, moves: seq<Move>, k: nat)
    requires IsRun(c, worlds, moves) && k < |moves| && moves[k].step.FindStale?
    ensures !FreshFor(c, worlds[k + 1], moves[k].step)
  {
    assert Next(c, worlds[k], worlds[k + 1], moves[k].pid, moves[k].step);
  }

  lemma GoOn(c: Codec, worlds: seq<World>, moves: seq<Move>, w: World, m: Move)
    returns (worlds': seq<World>, moves': seq<Move>)
    requires IsRun(c, worlds, moves) && Next(c, worlds[|worlds| - 1], w, m.pid, m.step)
    ensures IsRun(c, worlds', moves') && worlds' == worlds + [w] && moves' == moves + [m]
  {
    hide Next;
    worlds', moves' := worlds + [w], moves + [m];
    forall i | 0 <= i < |moves'|
      ensures Next(c, worlds'[i], worlds'[i + 1], moves'[i].pid, moves'[i].step)
    {
      assert i < |moves| ==> Next(c, worlds[i], worlds[i + 1], moves[i].pid, moves[i].step);
    }
  }

  const HOURLY := Settings(true, 1)
  const LATER: nat := 3600

  /** An hour old, and found so by two refreshers. */
  function FoundStale(body: Bytes, latest: Latest): World {
    World(Some(body), None, Whole(Stamp(latest.version, 0)), None, map[1 := Stale, 2 := Stale], {})
  }

  lemma BothFindItStale(c: Codec, body: Bytes, latest: Latest) returns (worlds: seq<World>, moves: seq<Move>)
    requires c.parses(body)
    ensures IsRun(c, worlds, moves) && |moves| == 4 && moves[3] == Move(2, FindStale(HOURLY, LATER))
    ensures worlds[4] == FoundStale(body, latest)
  {
    var w0 := FoundStale(body, latest).(procs := map[]);
    var w1 := w0.(procs := map[1 := Starting]);
    var w2 := w0.(procs := map[1 := Starting, 2 := Starting]);
    var w3 := w0.(procs := map[1 := Stale, 2 := Starting]);
    assert w1 == Moved(w0, 1, Starting) && w2 == Moved(w1, 2, Starting) && w3 == Moved(w2, 1, Stale);
    assert FoundStale(body, latest) == Moved(w3, 2, Stale);
    worlds, moves := GoOn(c, [w0], [], w1, Move(1, Join));
    worlds, moves := GoOn(c, worlds, moves, w2, Move(2, Join));
    worlds, moves := GoOn(c, worlds, moves, w3, Move(1, FindStale(HOURLY, LATER)));
    worlds, moves := GoOn(c, worlds, moves, FoundStale(body, latest), Move(2, FindStale(HOURLY, LATER)));
  }

  /** Two refreshers find the cache expired; the first renews its stamp; the second takes the lock over a
      cache that is fresh by then. */
  lemma LockIsTakenOverAFreshCache(c: Codec, body: Bytes, latest: Latest)
    returns (worlds: seq<World>, moves: seq<Move>)
    requires c.parses(body) && latest.minSchema <= SUPPORTED_SCHEMA
    ensures IsRun(c, worlds, moves) && |moves| == 9
    ensures moves[3] == Move(2, FindStale(HOURLY, LATER)) && moves[8] == Move(2, TakeLock)
    ensures FreshFor(c, worlds[8], moves[3].step)
  {
    worlds, moves := BothFindItStale(c, body, latest);
    hide IsRun;
    var w := FoundStale(body, latest);
    var locked := Moved(w, 1, Locked).(lock := Some(1));
    var heard := Moved(locked, 1, HasPointer(latest));
    var same := Moved(heard, 1, Stamping(latest, Fresh(latest.version)));
    var renewed := Left(same, 1, Done(Fresh(latest.version))).(stamp := Whole(Stamp(latest.version, LATER)),
                                                               wrote := {1});
    worlds, moves := GoOn(c, worlds, moves, locked, Move(1, TakeLock));
    worlds, moves := GoOn(c, worlds, moves, heard, Move(1, Pointer(latest)));
    worlds, moves := GoOn(c, worlds, moves, same, Move(1, Confirm));
    worlds, moves := GoOn(c, worlds, moves, renewed, Move(1, FinishStamp(LATER)));
    worlds, moves := GoOn(c, worlds, moves, Moved(renewed, 2, Locked).(lock := Some(2)), Move(2, TakeLock));
  }
}
