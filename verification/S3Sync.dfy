/**
 * The session sync to S3 (src/auth/s3_session.cpp): steps behind the gate, each reading td.binlog and
 * putting it unless it is what was put last. Hashes stand for the data they are of.
 */
module S3Sync {
  import opened Options
  import opened CoalescingGate

  /** How a put ends: stored and acknowledged; refused; or stored although it reports failure. */
  datatype Put = Stored | Refused | Unacknowledged

  /** How a step ends: sync was disabled, there was no binlog, it was what was put last, or it was put. */
  datatype Ending = NotEnded | Stopped | Empty | Skipped | PutAs(result: Put)

  /** The local state of a step: before the disabled check, before the read, with data, and at its end. */
  datatype Local = AtStart | AtRead | Holding(data: string) | AtEnd(how: Ending)

  datatype PutCall = PutCall(data: string, result: Put)

  datatype Sync = Sync(
    gate: Gate,
    local: map<nat, Local>,          // by worker, while in a step
    versions: seq<Option<string>>,   // every content td.binlog had; the last is the current one
    disabled: bool,
    lastPut: Option<string>,         // last_hash_
    stored: Option<string>,          // what S3 holds
    asked: nat,                      // the version current at the latest request
    readVersion: nat,                // the version the latest step that read one read
    before: Option<string>,          // what S3 held when the latest step began
    ending: Ending,                  // how the latest step that ended did
    puts: seq<PutCall>)              // every put there ever was

  datatype Move =
    | Asked
    | BinlogWritten(content: Option<string>)
    | Disable
    | StepBegins(worker: nat)
    | ChecksDisabled(worker: nat)
    | Reads(worker: nat)
    | Puts(worker: nat, result: Put)
    | StepEnds(worker: nat)

  function Fresh(content: Option<string>): Sync {
    Sync(Idle(), map[], [content], false, None, None, 0, 0, None, NotEnded, [])
  }

  function Current(s: Sync): Option<string>
    requires s.versions != []
  {
    s.versions[|s.versions| - 1]
  }

  predicate At(s: Sync, w: nat, l: Local) {
    w in s.local && s.local[w] == l
  }

  function BeginAt(s: Sync, w: nat): Sync {
    if w in s.gate.workers && s.gate.workers[w].Due? then
      s.(gate := BeginStep(s.gate, w), local := s.local[w := AtStart], before := s.stored)
    else s
  }

  function ReadStep(s: Sync, w: nat): Sync
    requires s.versions != []
  {
    s.(readVersion := |s.versions| - 1,
       local := s.local[w := match Current(s)
                             case None => AtEnd(Empty)
                             case Some(d) => Holding(d)])
  }

  function PutStep(s: Sync, w: nat, data: string, result: Put): Sync {
    if s.lastPut == Some(data) then s.(local := s.local[w := AtEnd(Skipped)])
    else
      s.(local := s.local[w := AtEnd(PutAs(result))],
         puts := s.puts + [PutCall(data, result)],
         stored := if result.Refused? then s.stored else Some(data),
         lastPut := if result.Stored? then Some(data) else s.lastPut)
  }

  function EndAt(s: Sync, w: nat): Sync {
    if w in s.local && s.local[w].AtEnd? then
      s.(gate := EndStep(s.gate, w), local := s.local - {w}, ending := s.local[w].how)
    else s
  }

  function Do(s: Sync, m: Move): (r: Sync)
    requires s.versions != []
    ensures r.versions != []
  {
    match m
    case Asked => s.(gate := Request(s.gate), asked := |s.versions| - 1)
    case BinlogWritten(c) => s.(versions := s.versions + [c])
    case Disable => s.(disabled := true)
    case StepBegins(w) => BeginAt(s, w)
    case ChecksDisabled(w) =>
      if At(s, w, AtStart) then s.(local := s.local[w := if s.disabled then AtEnd(Stopped) else AtRead]) else s
    case Reads(w) =>
      if At(s, w, AtRead) then ReadStep(s, w) else s
    case Puts(w, result) =>
      if w in s.local && s.local[w].Holding? then PutStep(s, w, s.local[w].data, result) else s
    case StepEnds(w) => EndAt(s, w)
  }

  function Play(s: Sync, ms: seq<Move>): (r: Sync)
    requires s.versions != []
    ensures r.versions != []
    decreases |ms|
  {
    if ms == [] then s else Play(Do(s, ms[0]), ms[1..])
  }

  // ------------------------------------------------------------------ what a history of puts leaves

  /** What the puts left in S3: the data of the last that was not refused. */
  function Landed(puts: seq<PutCall>): Option<string>
    decreases |puts|
  {
    if puts == [] then None
    else
      var last := puts[|puts| - 1];
      if last.result.Refused? then Landed(puts[..|puts| - 1]) else Some(last.data)
  }

  /** The data of the last put that was acknowledged. */
  function Acknowledged(puts: seq<PutCall>): Option<string>
    decreases |puts|
  {
    if puts == [] then None
    else
      var last := puts[|puts| - 1];
      if last.result.Stored? then Some(last.data) else Acknowledged(puts[..|puts| - 1])
  }

  /** No unacknowledged put came after the last acknowledged one. */
  predicate Certain(puts: seq<PutCall>)
    decreases |puts|
  {
    if puts == [] then true
    else
      match puts[|puts| - 1].result
      case Stored => true
      case Refused => Certain(puts[..|puts| - 1])
      case Unacknowledged => false
  }

  /** A put is only made of data other than what was acknowledged last. */
  predicate EachIsNew(puts: seq<PutCall>)
    decreases |puts|
  {
    puts == [] ||
    (Acknowledged(puts[..|puts| - 1]) != Some(puts[|puts| - 1].data) && EachIsNew(puts[..|puts| - 1]))
  }

  /** S3 holds what was acknowledged last exactly when no unacknowledged put came after it. */
  lemma {:induction false} LandedIsAcknowledgedExactly(puts: seq<PutCall>)
    requires EachIsNew(puts)
    ensures Landed(puts) == Acknowledged(puts) <==> Certain(puts)
    decreases |puts|
  {
    if puts != [] && puts[|puts| - 1].result.Refused? {
      LandedIsAcknowledgedExactly(puts[..|puts| - 1]);
    }
  }

  // ------------------------------------------------------------------ the invariant

  /** A step's local state exists exactly while its worker is in the step. */
  ghost predicate LocalsOk(s: Sync) {
    && Sound(s.gate) && !s.gate.stopped
    && (forall w :: w in s.local <==> w in s.gate.workers && s.gate.workers[w].InStep?)
  }

  predicate VersionsOk(s: Sync) {
    s.versions != [] && s.asked < |s.versions| && s.readVersion < |s.versions|
  }

  predicate PutsOk(s: Sync) {
    s.stored == Landed(s.puts) && s.lastPut == Acknowledged(s.puts) && EachIsNew(s.puts)
  }

  /** The read is at least as new as the requests it covers. */
  predicate ReadLate(s: Sync) {
    s.gate.covered == s.gate.asked ==> s.asked <= s.readVersion
  }

  /** What is known once a step has ended. */
  predicate EndedAs(s: Sync, how: Ending)
    requires VersionsOk(s)
  {
    var read := s.versions[s.readVersion];
    match how
    case NotEnded => false
    case Stopped => s.disabled && s.stored == s.before
    case Empty => ReadLate(s) && read == None && s.stored == s.before
    case Skipped => ReadLate(s) && read.Some? && read == s.lastPut && s.stored == s.before
    case PutAs(r) =>
      && ReadLate(s) && read.Some? && s.puts != [] && s.puts[|s.puts| - 1] == PutCall(read.value, r)
      && s.stored == if r.Refused? then s.before else read
  }

  predicate LocalOk(s: Sync, l: Local)
    requires VersionsOk(s)
  {
    match l
    case AtStart => s.stored == s.before
    case AtRead => s.stored == s.before
    case Holding(d) => s.stored == s.before && ReadLate(s) && s.versions[s.readVersion] == Some(d)
    case AtEnd(how) => EndedAs(s, how)
  }

  ghost predicate StepsOk(s: Sync)
    requires VersionsOk(s)
  {
    && (forall w | w in s.local :: LocalOk(s, s.local[w]))
    && (s.gate.steps > 0 && s.local == map[] ==> EndedAs(s, s.ending))
    && (s.gate.covered > 0 ==> s.gate.steps > 0)
  }

  ghost predicate Inv(s: Sync) {
    VersionsOk(s) && LocalsOk(s) && PutsOk(s) && StepsOk(s)
  }

  /** Only the latest worker can be in a step. */
  lemma OneLocal(s: Sync, w: nat)
    requires LocalsOk(s) && w in s.local
    ensures s.local == map[w := s.local[w]]
  {
    assert s.gate.workers.Keys == {s.gate.spawned - 1};
    forall v | v in s.local ensures v == w {
      assert v in s.gate.workers.Keys && w in s.gate.workers.Keys;
    }
  }

  lemma AskedKeeps(s: Sync)
    requires Inv(s)
    ensures Inv(Do(s, Asked))
  {
    RequestKeeps(s.gate);
    var r := Do(s, Asked);
    assert r.gate.covered < r.gate.asked;
  }

  lemma WrittenKeeps(s: Sync, c: Option<string>)
    requires Inv(s)
    ensures Inv(Do(s, BinlogWritten(c)))
  {
    var r := Do(s, BinlogWritten(c));
    assert r.versions[s.readVersion] == s.versions[s.readVersion];
  }

  lemma DisableKeeps(s: Sync)
    requires Inv(s)
    ensures Inv(Do(s, Disable))
  {
  }

  lemma BeginsKeeps(s: Sync, w: nat)
    requires Inv(s)
    ensures Inv(Do(s, StepBegins(w)))
  {
    BeginKeeps(s.gate, w);
    var r := Do(s, StepBegins(w));
    if r != s {
      assert w == s.gate.spawned - 1;
      assert r.gate.workers.Keys == s.gate.workers.Keys;
      forall v ensures v !in s.local {
        assert v in s.gate.workers ==> v == w;
      }
    }
  }

  lemma ChecksKeeps(s: Sync, w: nat)
    requires Inv(s)
    ensures Inv(Do(s, ChecksDisabled(w)))
  {
    if w in s.local {
      OneLocal(s, w);
    }
  }

  lemma ReadsKeeps(s: Sync, w: nat)
    requires Inv(s)
    ensures Inv(Do(s, Reads(w)))
  {
    if w in s.local {
      OneLocal(s, w);
    }
  }

  lemma PutKeepsPuts(s: Sync, w: nat, data: string, result: Put)
    requires PutsOk(s)
    ensures PutsOk(PutStep(s, w, data, result))
  {
    var r := PutStep(s, w, data, result);
    if s.lastPut != Some(data) {
      assert r.puts[..|s.puts|] == s.puts;
    }
  }

  lemma PutEnds(s: Sync, w: nat, data: string, result: Put)
    requires VersionsOk(s) && LocalOk(s, Holding(data))
    ensures var r := PutStep(s, w, data, result);
      w in r.local && LocalOk(r, r.local[w])
  {
    var r := PutStep(s, w, data, result);
    if s.lastPut != Some(data) {
      assert r.puts[|r.puts| - 1] == PutCall(data, result);
    }
  }

  lemma PutsKeeps(s: Sync, w: nat, result: Put)
    requires Inv(s)
    ensures Inv(Do(s, Puts(w, result)))
  {
    if w in s.local && s.local[w].Holding? {
      var data := s.local[w].data;
      var r := PutStep(s, w, data, result);
      OneLocal(s, w);
      assert LocalOk(s, s.local[w]);
      PutKeepsPuts(s, w, data, result);
      PutEnds(s, w, data, result);
      assert r.gate == s.gate && r.local.Keys == s.local.Keys;
      assert LocalsOk(r);
      forall v | v in r.local ensures LocalOk(r, r.local[v]) {
        assert v == w;
      }
    }
  }

  lemma EndsKeeps(s: Sync, w: nat)
    requires Inv(s)
    ensures Inv(Do(s, StepEnds(w)))
  {
    EndKeeps(s.gate, w);
    if w in s.local {
      OneLocal(s, w);
      assert LocalOk(s, s.local[w]);
    }
  }

  lemma DoKeeps(s: Sync, m: Move)
    requires Inv(s)
    ensures Inv(Do(s, m))
  {
    match m {
      case Asked => AskedKeeps(s);
      case BinlogWritten(c) => WrittenKeeps(s, c);
      case Disable => DisableKeeps(s);
      case StepBegins(w) => BeginsKeeps(s, w);
      case ChecksDisabled(w) => ChecksKeeps(s, w);
      case Reads(w) => ReadsKeeps(s, w);
      case Puts(w, result) => PutsKeeps(s, w, result);
      case StepEnds(w) => EndsKeeps(s, w);
    }
  }

  lemma {:induction false} PlayKeeps(s: Sync, ms: seq<Move>)
    requires Inv(s)
    ensures Inv(Play(s, ms))
    decreases |ms|
  {
    if ms != [] {
      DoKeeps(s, ms[0]);
      PlayKeeps(Do(s, ms[0]), ms[1..]);
    }
  }

  // ------------------------------------------------------------------ the theorems

  /** When the read of the latest step is what S3 holds, told by how the step ended and by the puts so far. */
  predicate UpToDate(s: Sync)
    requires VersionsOk(s)
  {
    match s.ending
    case Empty => Landed(s.puts) == None
    case Skipped => Certain(s.puts)
    case PutAs(r) => !r.Refused? || s.before == s.versions[s.readVersion]
    case _ => false
  }

  /**
   * Over every run, with puts that failed in either way and reads that found no binlog anywhere in it:
   * at rest after a request, unless sync was disabled before the latest step looked, that step read the
   * binlog at or after the last request, and S3 holds what it read exactly if: the step put it and the put
   * landed; or it skipped its put and no unacknowledged put had come after the last acknowledged one; or
   * its put was refused, or it found no binlog, and S3 held that (or nothing) already.
   */
  lemma QuiescentExactly(content: Option<string>, ms: seq<Move>)
    ensures var s := Play(Fresh(content), ms);
      && VersionsOk(s)
      && (s.gate.workers == map[] && s.gate.asked > 0 ==>
           && EndedAs(s, s.ending)
           && (s.ending.Stopped? ==> s.disabled && s.stored == s.before)
           && (!s.ending.Stopped? ==>
                && s.asked <= s.readVersion
                && (s.stored == s.versions[s.readVersion] <==> UpToDate(s))))
  {
    PlayKeeps(Fresh(content), ms);
    var s := Play(Fresh(content), ms);
    if s.gate.workers == map[] && s.gate.asked > 0 {
      assert s.local == map[];
      if !s.ending.Stopped? {
        AtRestExactly(s);
      }
    }
  }

  lemma AtRestExactly(s: Sync)
    requires VersionsOk(s) && PutsOk(s) && EndedAs(s, s.ending)
    requires !s.ending.Stopped?
    ensures s.stored == s.versions[s.readVersion] <==> UpToDate(s)
  {
    LandedIsAcknowledgedExactly(s.puts);
  }

  /**
   * So when the latest step read a binlog and its put did not fail, no unacknowledged put came after the
   * last acknowledged one, and sync was not disabled, S3 holds the binlog as read at or after the last
   * request; and the current one if it was not written since.
   */
  lemma QuiescentIsSynced(content: Option<string>, ms: seq<Move>)
    ensures var s := Play(Fresh(content), ms);
      && VersionsOk(s)
      && (s.gate.workers == map[] && s.gate.asked > 0 && !s.disabled && s.versions[s.readVersion].Some?
          && Certain(s.puts) && s.ending != PutAs(Refused) ==>
           && s.asked <= s.readVersion && s.stored == s.versions[s.readVersion]
           && (s.asked == |s.versions| - 1 ==> s.stored == Current(s)))
  {
    QuiescentExactly(content, ms);
  }

  predicate NoWrites(ms: seq<Move>) {
    forall m | m in ms :: !m.BinlogWritten?
  }

  lemma {:induction false} NoWritesKeep(s: Sync, ms: seq<Move>)
    requires s.versions != [] && s.asked == |s.versions| - 1 && NoWrites(ms)
    ensures Play(s, ms).versions == s.versions && Play(s, ms).asked == s.asked
    decreases |ms|
  {
    if ms != [] {
      assert ms[0] in ms;
      NoWritesKeep(Do(s, ms[0]), ms[1..]);
    }
  }

  /**
   * So whenever a request is made and the binlog is not written any more, S3 holds it at rest, if the latest step
   * found it and put it without a refusal, no put went unacknowledged since the last acknowledged one, and sync
   * was not disabled.
   */
  lemma RequestIsSynced(content: Option<string>, ms: seq<Move>, more: seq<Move>)
    requires NoWrites(more)
    ensures var s := Play(Do(Play(Fresh(content), ms), Asked), more);
      && VersionsOk(s)
      && (s.gate.workers == map[] && !s.disabled && s.versions[s.readVersion].Some? && Certain(s.puts)
          && s.ending != PutAs(Refused) ==>
           s.stored == Current(s))
  {
    var a := Do(Play(Fresh(content), ms), Asked);
    NoWritesKeep(a, more);
    PlaySplit(Fresh(content), ms + [Asked], more);
    PlaySplit(Fresh(content), ms, [Asked]);
    assert [Asked][1..] == [];
    assert Play(Fresh(content), ms + [Asked]) == a;
    var all := ms + [Asked] + more;
    QuiescentIsSynced(content, all);
    RequestsCount(content, ms, more);
  }

  lemma {:induction false} PlaySplit(s: Sync, ms: seq<Move>, more: seq<Move>)
    requires s.versions != []
    ensures Play(s, ms + more) == Play(Play(s, ms), more)
    decreases |ms|
  {
    if ms == [] {
      assert ms + more == more;
    } else {
      assert (ms + more)[0] == ms[0] && (ms + more)[1..] == ms[1..] + more;
      PlaySplit(Do(s, ms[0]), ms[1..], more);
    }
  }

  lemma {:induction false} NeverStopped(s: Sync, ms: seq<Move>)
    requires s.versions != [] && !s.gate.stopped
    ensures !Play(s, ms).gate.stopped && Play(s, ms).gate.asked >= s.gate.asked
    decreases |ms|
  {
    if ms != [] {
      NeverStopped(Do(s, ms[0]), ms[1..]);
    }
  }

  lemma RequestsCount(content: Option<string>, ms: seq<Move>, more: seq<Move>)
    ensures Play(Do(Play(Fresh(content), ms), Asked), more).gate.asked > 0
  {
    NeverStopped(Fresh(content), ms);
    NeverStopped(Do(Play(Fresh(content), ms), Asked), more);
  }

  // ------------------------------------------------------------------ a disabled sync

  /** Some step has found sync enabled and may still put. */
  predicate PutMayCome(s: Sync) {
    exists w :: w in s.local && (s.local[w].AtRead? || s.local[w].Holding?)
  }

  predicate SameData(s: Sync, r: Sync) {
    r.puts == s.puts && r.stored == s.stored && r.lastPut == s.lastPut
  }

  predicate OnePutMore(s: Sync, r: Sync) {
    s.puts <= r.puts && |r.puts| == |s.puts| + 1
  }

  /** At most one put has come since, and it was the last that may. */
  predicate OnePutAtMost(s: Sync, r: Sync) {
    SameData(s, r) || (OnePutMore(s, r) && !PutMayCome(r))
  }

  /** Sync is disabled for good. */
  lemma {:induction false} DisabledForGood(s: Sync, ms: seq<Move>)
    requires s.versions != [] && s.disabled
    ensures Play(s, ms).disabled
    decreases |ms|
  {
    if ms != [] {
      DisabledForGood(Do(s, ms[0]), ms[1..]);
    }
  }

  /** The worker has not ended its step in between. */
  predicate SameStep(ms: seq<Move>, w: nat) {
    StepEnds(w) !in ms
  }

  /** A step that has been stopped stays so until it ends, and every put of it comes to nothing. */
  lemma {:induction false} StoppedStays(s: Sync, ms: seq<Move>, w: nat, result: Put)
    requires Inv(s) && At(s, w, AtEnd(Stopped)) && SameStep(ms, w)
    ensures var r := Play(s, ms); At(r, w, AtEnd(Stopped)) && Do(r, Puts(w, result)) == r
    decreases |ms|
  {
    if ms != [] {
      assert ms[0] in ms;
      DoKeeps(s, ms[0]);
      StoppedOnce(s, ms[0], w);
      StoppedStays(Do(s, ms[0]), ms[1..], w, result);
    }
  }

  lemma StoppedOnce(s: Sync, m: Move, w: nat)
    requires LocalsOk(s) && s.versions != [] && At(s, w, AtEnd(Stopped)) && m != StepEnds(w)
    ensures At(Do(s, m), w, AtEnd(Stopped))
  {
    assert s.gate.workers[w].InStep?;
  }

  /**
   * In every run: a step that checks while sync is disabled ends there, whatever follows; in that step its
   * worker puts nothing.
   */
  lemma DisabledStepPutsNothing(content: Option<string>, ms: seq<Move>, s: Sync, w: nat, more: seq<Move>, result: Put)
    requires s == Play(Fresh(content), ms) && s.disabled && At(s, w, AtStart) && SameStep(more, w)
    ensures var c := Do(s, ChecksDisabled(w)); var r := Play(c, more);
      && SameData(s, c) && At(r, w, AtEnd(Stopped)) && Do(r, Puts(w, result)) == r
  {
    PlayKeeps(Fresh(content), ms);
    DoKeeps(s, ChecksDisabled(w));
    StoppedStays(Do(s, ChecksDisabled(w)), more, w, result);
  }

  /** Once sync is disabled no move lets another step put, and a put ends the only one that may. */
  lemma DisabledMove(s: Sync, m: Move)
    requires Inv(s) && s.disabled
    ensures !PutMayCome(s) ==> SameData(s, Do(s, m)) && !PutMayCome(Do(s, m))
    ensures OnePutAtMost(s, Do(s, m))
  {
    var r := Do(s, m);
    if m.Puts? && m.worker in s.local && s.local[m.worker].Holding? {
      OneLocal(s, m.worker);
      assert r.local == map[m.worker := r.local[m.worker]];
      if s.lastPut != Some(s.local[m.worker].data) {
        assert r.puts == s.puts + [PutCall(s.local[m.worker].data, m.result)];
      }
    }
  }

  /** Then nothing is put any more. */
  lemma {:induction false} NothingComes(s: Sync, ms: seq<Move>)
    requires Inv(s) && s.disabled && !PutMayCome(s)
    ensures SameData(s, Play(s, ms))
    decreases |ms|
  {
    if ms != [] {
      DisabledMove(s, ms[0]);
      DoKeeps(s, ms[0]);
      NothingComes(Do(s, ms[0]), ms[1..]);
    }
  }

  lemma {:induction false} OneComes(s: Sync, ms: seq<Move>)
    requires Inv(s) && s.disabled
    ensures var r := Play(s, ms); SameData(s, r) || OnePutMore(s, r)
    decreases |ms|
  {
    if ms != [] {
      var n := Do(s, ms[0]);
      DisabledMove(s, ms[0]);
      DoKeeps(s, ms[0]);
      if SameData(s, n) {
        OneComes(n, ms[1..]);
      } else {
        NothingComes(n, ms[1..]);
      }
    }
  }

  /**
   * In every run, once sync is disabled: no put is made any more but that of a step already past its check,
   * and of that one at most.
   */
  lemma DisabledPutsNothing(content: Option<string>, ms: seq<Move>, s: Sync, more: seq<Move>)
    requires s == Play(Fresh(content), ms) && s.disabled
    ensures var r := Play(s, more);
      && r.disabled
      && (!PutMayCome(s) ==> SameData(s, r))
      && (SameData(s, r) || OnePutMore(s, r))
  {
    PlayKeeps(Fresh(content), ms);
    DisabledForGood(s, more);
    OneComes(s, more);
    if !PutMayCome(s) {
      NothingComes(s, more);
    }
  }

  // ------------------------------------------------------------------ whole rounds

  /** The binlog is written and asked for, and worker w begins its step. */
  function Prompted(s: Sync, content: string, w: nat): (r: Sync)
    requires s.versions != []
    ensures r.versions != []
  {
    Do(Do(Do(s, BinlogWritten(Some(content))), Asked), StepBegins(w))
  }

  /** An undisturbed step of worker w up to its end, whose put, if one is made, ends in `result`. */
  function Made(s: Sync, w: nat, result: Put): (r: Sync)
    requires s.versions != []
    ensures r.versions != []
  {
    Do(Do(Do(s, ChecksDisabled(w)), Reads(w)), Puts(w, result))
  }

  predicate AtRest(s: Sync, w: nat) {
    && s.versions != [] && !s.disabled && s.local == map[] && s.gate.workers == map[]
    && !s.gate.running && !s.gate.pending && !s.gate.stopped && s.gate.spawned == w
  }

  predicate InStepAlone(s: Sync, w: nat) {
    && s.versions != [] && !s.disabled && s.local == map[w := AtStart] && s.gate.workers == map[w := InStep]
    && s.gate.running && !s.gate.pending && s.gate.spawned == w + 1 && !s.gate.stopped
  }

  predicate SamePuts(s: Sync, r: Sync) {
    r.lastPut == s.lastPut && r.stored == s.stored && r.puts == s.puts
  }

  lemma PromptedEffect(s: Sync, content: string, w: nat)
    requires AtRest(s, w)
    ensures var r := Prompted(s, content, w);
      InStepAlone(r, w) && Current(r) == Some(content) && SamePuts(s, r)
  {
  }

  lemma ReadEffect(s: Sync, content: string, w: nat)
    requires InStepAlone(s, w) && Current(s) == Some(content)
    ensures Do(Do(s, ChecksDisabled(w)), Reads(w))
      == s.(local := map[w := Holding(content)], readVersion := |s.versions| - 1)
  {
    var s1 := Do(s, ChecksDisabled(w));
    assert s1 == s.(local := map[w := AtRead]);
  }

  lemma EndEffect(s: Sync, w: nat, how: Ending)
    requires s.versions != [] && s.local == map[w := AtEnd(how)] && s.gate.workers == map[w := InStep]
    requires s.gate.running && !s.gate.pending && s.gate.spawned == w + 1 && !s.gate.stopped && !s.disabled
    ensures var r := Do(s, StepEnds(w)); AtRest(r, w + 1) && r.versions == s.versions && SamePuts(s, r)
  {
  }

  function Round(s: Sync, content: string, w: nat, result: Put): (r: Sync)
    requires s.versions != []
    ensures r.versions != []
  {
    Do(Made(Prompted(s, content, w), w, result), StepEnds(w))
  }

  /** An undisturbed round: it skips what was acknowledged last, and puts anything else. */
  lemma RoundEffect(s: Sync, content: string, w: nat, result: Put)
    requires AtRest(s, w)
    ensures var r := Round(s, content, w, result);
      && AtRest(r, w + 1) && Current(r) == Some(content)
      && (s.lastPut == Some(content) ==> SamePuts(s, r))
      && (s.lastPut != Some(content) ==>
           && r.puts == s.puts + [PutCall(content, result)]
           && r.stored == (if result.Refused? then s.stored else Some(content))
           && r.lastPut == (if result.Stored? then Some(content) else s.lastPut))
  {
    var p := Prompted(s, content, w);
    PromptedEffect(s, content, w);
    ReadEffect(p, content, w);
    var m := Made(p, w, result);
    EndEffect(m, w, if s.lastPut == Some(content) then Skipped else PutAs(result));
  }

  /**
   * Whenever an unacknowledged put came after the last acknowledged one, a binlog that goes back to what
   * was acknowledged is never put again: the rounds over it end well and S3 keeps the other content.
   */
  lemma UncertainSticks(s: Sync, content: string, w: nat, result: Put)
    requires AtRest(s, w) && PutsOk(s) && s.lastPut == Some(content)
    ensures var r := Round(s, content, w, result);
      && Current(r) == Some(content) && PutsOk(r) && r.lastPut == Some(content)
      && (r.stored != Some(content) <==> !Certain(s.puts))
  {
    RoundEffect(s, content, w, result);
    LandedIsAcknowledgedExactly(s.puts);
  }

  /** Such a state is reachable: A is put, then B without acknowledgement, and the binlog goes back to A. */
  lemma UnacknowledgedPutCanStick(a: string, b: string)
    requires a != b
    ensures var s := Round(Round(Round(Fresh(None), a, 0, Stored), b, 1, Unacknowledged), a, 2, Stored);
      s.gate.workers == map[] && Current(s) == Some(a) && s.stored == Some(b)
  {
    var s0 := Fresh(None);
    RoundEffect(s0, a, 0, Stored);
    var s1 := Round(s0, a, 0, Stored);
    RoundEffect(s1, b, 1, Unacknowledged);
    var s2 := Round(s1, b, 1, Unacknowledged);
    RoundEffect(s2, a, 2, Stored);
  }

  // ------------------------------------------------------------------ the step, in place

  class S3SessionSync {
    var lastPut: Option<string>
    var disabled: bool
    var stored: Option<string>  // the bucket's object, written only from here

    predicate Shows(s: Sync)
      reads this
    {
      lastPut == s.lastPut && disabled == s.disabled && stored == s.stored
    }

    constructor ()
      ensures forall c :: Shows(Fresh(c))
    {
      lastPut, disabled, stored := None, false, None;
    }

    /** One step of worker w over the current binlog; true when a put succeeded. */
    method SyncOnce(ghost s: Sync, ghost w: nat, binlog: Option<string>, result: Put) returns (pushed: bool)
      requires s.versions != [] && binlog == Current(s) && At(s, w, AtStart) && Shows(s)
      modifies this`lastPut, this`stored
      ensures Shows(Made(s, w, result))
      ensures pushed <==> At(Made(s, w, result), w, AtEnd(PutAs(Stored)))
      ensures disabled ==> !pushed && stored == old(stored) && lastPut == old(lastPut)
      ensures pushed <==> !disabled && binlog.Some? && binlog != old(lastPut) && result.Stored?
      ensures stored ==
        if !disabled && binlog.Some? && binlog != old(lastPut) && !result.Refused? then binlog else old(stored)
      ensures lastPut == if pushed then binlog else old(lastPut)
    {
      if disabled { return false; }
      if binlog.None? { return false; }
      if binlog == lastPut { return false; }
      if !result.Refused? {
        stored := binlog;
      }
      if !result.Stored? { return false; }
      lastPut := binlog;
      pushed := true;
    }
  }
}
