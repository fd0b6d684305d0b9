/**
 * The deletion pipeline of an account (control-plane/src/lifecycle.ts): one pass runs as many steps as
 * it can; any call may throw, and the next pass resumes at the stored step.
 */
module Deletion {
  import opened Options
  import opened Decimal

  const LOGOUT_WAIT_PASSES: nat := 3

  datatype DeleteStep =
    | NotStarted
    | LogoutWait(passes: nat)
    | LoggedOut
    | Scaled
    | PodGone
    | S3Deleted
    | ArchivePurged

  /** What a pass did to the outside: an attempt stands before its call, a result after it succeeded. */
  datatype Event =
    | LogoutAttempt
    | Kick
    | PodSeenGone
    | S3Attempt
    | S3Emptied
    | PurgeAttempt
    | PurgeDone
    | PurgeSkipped
    | SecretAttempt
    | SecretRemoved
    | RecordAttempt
    | RecordRemoved

  datatype Config = Config(archiverUrl: bool, archiverToken: bool)

  datatype Reply<T> = Answer(value: T) | Throws

  datatype LogoutReply = LogoutOk | NoSession | LogoutFailed

  /** How the outside answers the calls of one pass; `writes` step updates succeed before one throws. */
  datatype Outside = Outside(
    adminSecret: Reply<bool>, health: Reply<bool>, logout: Reply<LogoutReply>, podGone: Reply<bool>,
    deletePrefix: Reply<()>, purge: bool, removeSecret: Reply<()>, removeRecord: Reply<()>, writes: nat)

  datatype Block = PodStillThere | PurgeRefused | Error

  datatype Outcome = Finished | Moved | Blocked(why: Block)

  /** A pass under way; `outcome` is set when it returns or throws. */
  datatype Pass = Pass(step: DeleteStep, recorded: bool, log: seq<Event>, writes: nat, outcome: Option<Outcome>)

  function Halt(p: Pass, o: Outcome): Pass {
    p.(outcome := Some(o))
  }

  function Say(p: Pass, e: Event): Pass {
    p.(log := p.log + [e])
  }

  function Put(p: Pass, s: DeleteStep): Pass {
    if p.writes == 0 then Halt(p, Blocked(Error)) else p.(step := s, writes := p.writes - 1)
  }

  function Waited(s: DeleteStep): nat {
    if s.LogoutWait? then s.passes else 0
  }

  /** Whether the logout stage counts as done, and the events of asking. */
  function AskLogout(p: Pass, o: Outside): (Pass, Reply<bool>) {
    match o.adminSecret
    case Throws => (p, Throws)
    case Answer(admin) =>
      if !admin then (p, Answer(true))
      else
        match o.health
        case Throws => (p, Throws)
        case Answer(up) =>
          var q := if up then Say(p, LogoutAttempt) else p;
          if up && o.logout.Throws? then (q, Throws)
          else (q, Answer((up && o.logout.value != LogoutFailed) || Waited(p.step) + 1 >= LOGOUT_WAIT_PASSES))
  }

  function LogoutStage(p: Pass, o: Outside): Pass {
    if p.outcome.Some? || !(p.step.NotStarted? || p.step.LogoutWait?) then p
    else
      var (q, done) := AskLogout(p, o);
      if done.Throws? then Halt(q, Blocked(Error))
      else if !done.value then
        var r := Put(q, LogoutWait(Waited(p.step) + 1));
        if r.outcome.Some? then r else Halt(r, Moved)
      else Put(q, LoggedOut)
  }

  function ScaleStage(p: Pass): Pass {
    if p.outcome.Some? || !p.step.LoggedOut? then p else Put(Say(p, Kick), Scaled)
  }

  function PodStage(p: Pass, o: Outside): Pass {
    if p.outcome.Some? || !p.step.Scaled? then p
    else
      match o.podGone
      case Throws => Halt(p, Blocked(Error))
      case Answer(gone) => if !gone then Halt(p, Blocked(PodStillThere)) else Put(Say(p, PodSeenGone), PodGone)
  }

  function S3Stage(p: Pass, o: Outside): Pass {
    if p.outcome.Some? || !p.step.PodGone? then p
    else
      var q := Say(p, S3Attempt);
      if o.deletePrefix.Throws? then Halt(q, Blocked(Error)) else Put(Say(q, S3Emptied), S3Deleted)
  }

  function PurgeStage(p: Pass, c: Config, o: Outside): Pass {
    if p.outcome.Some? || !p.step.S3Deleted? then p
    else if c.archiverUrl && !c.archiverToken then Halt(p, Blocked(PurgeRefused))
    else if c.archiverUrl then
      var q := Say(p, PurgeAttempt);
      if !o.purge then Halt(q, Blocked(PurgeRefused)) else Put(Say(q, PurgeDone), ArchivePurged)
    else Put(Say(p, PurgeSkipped), ArchivePurged)
  }

  function RemoveStage(p: Pass, o: Outside): Pass {
    if p.outcome.Some? || !p.step.ArchivePurged? then p
    else
      var q := Say(p, SecretAttempt);
      if o.removeSecret.Throws? then Halt(q, Blocked(Error))
      else
        var r := Say(Say(q, SecretRemoved), RecordAttempt);
        if o.removeRecord.Throws? then Halt(r, Blocked(Error))
        else Halt(Say(r, RecordRemoved).(recorded := false), Finished)
  }

  /** One pass over an account that is still recorded. */
  function Advance(step: DeleteStep, log: seq<Event>, c: Config, o: Outside): Pass {
    var p := Pass(step, true, log, o.writes, None);
    RemoveStage(PurgeStage(S3Stage(PodStage(ScaleStage(LogoutStage(p, o)), o), o), c, o), o)
  }

  // ------------------------------------------------------------------ order

  /** What must have happened before an event. */
  predicate May(c: Config, log: seq<Event>, e: Event) {
    && RecordRemoved !in log
    && (e == S3Attempt ==> PodSeenGone in log)
    && (e == PurgeAttempt || e == PurgeSkipped ==> S3Emptied in log)
    && (e == PurgeSkipped ==> !c.archiverUrl)
    && (e == SecretAttempt ==> PurgeDone in log || (PurgeSkipped in log && !c.archiverUrl))
    && (e == RecordAttempt || e == RecordRemoved ==> SecretRemoved in log)
  }

  ghost predicate Ordered(c: Config, log: seq<Event>) {
    forall i | 0 <= i < |log| :: May(c, log[..i], log[i])
  }

  /** What the stored step says about the past. */
  predicate StepBacked(c: Config, p: Pass) {
    && (p.step.PodGone? || p.step.S3Deleted? || p.step.ArchivePurged? ==> PodSeenGone in p.log)
    && (p.step.S3Deleted? || p.step.ArchivePurged? ==> S3Emptied in p.log)
    && (p.step.ArchivePurged? ==> PurgeDone in p.log || (PurgeSkipped in p.log && !c.archiverUrl))
    && (p.recorded <==> RecordRemoved !in p.log)
  }

  ghost predicate Sound(c: Config, p: Pass) {
    Ordered(c, p.log) && StepBacked(c, p)
  }

  lemma SayKeepsOrder(c: Config, log: seq<Event>, e: Event)
    requires Ordered(c, log) && May(c, log, e)
    ensures Ordered(c, log + [e])
  {
    var l := log + [e];
    forall i | 0 <= i < |l| ensures May(c, l[..i], l[i]) {
      assert l[..i] == if i < |log| then log[..i] else log;
    }
  }

  /** Asking for logout only adds the attempt; the step stays, waits, or becomes logged out. */
  lemma LogoutShape(p: Pass, o: Outside)
    ensures LogoutStage(p, o).log == p.log || LogoutStage(p, o).log == p.log + [LogoutAttempt]
    ensures LogoutStage(p, o).recorded == p.recorded
    ensures LogoutStage(p, o).step == p.step || LogoutStage(p, o).step.LogoutWait? || LogoutStage(p, o).step.LoggedOut?
  {
  }

  lemma AttemptKeepsBacking(c: Config, p: Pass, q: Pass)
    requires StepBacked(c, p) && q.recorded == p.recorded && q.log == p.log + [LogoutAttempt]
    requires q.step == p.step || q.step.LogoutWait? || q.step.LoggedOut?
    ensures StepBacked(c, q)
  {
    assert forall e :: e in q.log <==> e in p.log || e == LogoutAttempt;
  }

  lemma LogoutKeepsSound(c: Config, p: Pass, o: Outside)
    requires Sound(c, p) && p.recorded
    ensures Sound(c, LogoutStage(p, o)) && LogoutStage(p, o).recorded
  {
    LogoutShape(p, o);
    var q := LogoutStage(p, o);
    if q.log != p.log {
      SayKeepsOrder(c, p.log, LogoutAttempt);
      AttemptKeepsBacking(c, p, q);
    }
  }

  lemma ScaleKeepsSound(c: Config, p: Pass)
    requires Sound(c, p) && p.recorded
    ensures Sound(c, ScaleStage(p)) && ScaleStage(p).recorded
  {
    SayKeepsOrder(c, p.log, Kick);
  }

  lemma PodKeepsSound(c: Config, p: Pass, o: Outside)
    requires Sound(c, p) && p.recorded
    ensures Sound(c, PodStage(p, o)) && PodStage(p, o).recorded
  {
    SayKeepsOrder(c, p.log, PodSeenGone);
    assert PodSeenGone in p.log + [PodSeenGone];
  }

  lemma S3KeepsSound(c: Config, p: Pass, o: Outside)
    requires Sound(c, p) && p.recorded
    ensures Sound(c, S3Stage(p, o)) && S3Stage(p, o).recorded
  {
    if p.outcome.None? && p.step.PodGone? {
      SayKeepsOrder(c, p.log, S3Attempt);
      SayKeepsOrder(c, p.log + [S3Attempt], S3Emptied);
    }
  }

  lemma PurgeKeepsSound(c: Config, p: Pass, o: Outside)
    requires Sound(c, p) && p.recorded
    ensures Sound(c, PurgeStage(p, c, o)) && PurgeStage(p, c, o).recorded
  {
    if p.outcome.None? && p.step.S3Deleted? {
      if c.archiverUrl {
        SayKeepsOrder(c, p.log, PurgeAttempt);
        SayKeepsOrder(c, p.log + [PurgeAttempt], PurgeDone);
      } else {
        SayKeepsOrder(c, p.log, PurgeSkipped);
      }
    }
  }

  /** The three logs the removal of the last objects can leave. */
  lemma RemoveLogs(c: Config, log: seq<Event>)
    requires Ordered(c, log) && May(c, log, SecretAttempt)
    ensures var q := log + [SecretAttempt]; var r := q + [SecretRemoved] + [RecordAttempt];
      Ordered(c, q) && Ordered(c, r) && Ordered(c, r + [RecordRemoved])
  {
    SayKeepsOrder(c, log, SecretAttempt);
    var q := log + [SecretAttempt];
    SayKeepsOrder(c, q, SecretRemoved);
    SayKeepsOrder(c, q + [SecretRemoved], RecordAttempt);
    SayKeepsOrder(c, q + [SecretRemoved] + [RecordAttempt], RecordRemoved);
  }

  lemma RemoveKeepsBacked(c: Config, p: Pass, o: Outside)
    requires StepBacked(c, p) && p.recorded
    ensures StepBacked(c, RemoveStage(p, o))
  {
    var q := p.log + [SecretAttempt];
    var r := q + [SecretRemoved] + [RecordAttempt];
    assert forall e | e in p.log :: e in q && e in r && e in r + [RecordRemoved];
  }

  lemma RemoveKeepsOrder(c: Config, p: Pass, o: Outside)
    requires Sound(c, p) && p.recorded
    ensures Ordered(c, RemoveStage(p, o).log)
  {
    if p.outcome.None? && p.step.ArchivePurged? {
      RemoveLogs(c, p.log);
    }
  }

  lemma RemoveKeepsSound(c: Config, p: Pass, o: Outside)
    requires Sound(c, p) && p.recorded
    ensures Sound(c, RemoveStage(p, o))
  {
    RemoveKeepsBacked(c, p, o);
    RemoveKeepsOrder(c, p, o);
  }

  lemma AdvanceKeepsSound(step: DeleteStep, log: seq<Event>, c: Config, o: Outside)
    requires Sound(c, Pass(step, true, log, o.writes, None))
    ensures Sound(c, Advance(step, log, c, o))
  {
    var p0 := Pass(step, true, log, o.writes, None);
    var p1 := LogoutStage(p0, o);
    var p2 := ScaleStage(p1);
    var p3 := PodStage(p2, o);
    var p4 := S3Stage(p3, o);
    var p5 := PurgeStage(p4, c, o);
    LogoutKeepsSound(c, p0, o);
    ScaleKeepsSound(c, p1);
    PodKeepsSound(c, p2, o);
    S3KeepsSound(c, p3, o);
    PurgeKeepsSound(c, p4, o);
    RemoveKeepsSound(c, p5, o);
  }

  /** Any number of passes; a removed record is not visited again. */
  function Passes(step: DeleteStep, log: seq<Event>, c: Config, os: seq<Outside>): Pass
    decreases |os|
  {
    if os == [] then Pass(step, true, log, 0, None)
    else
      var p := Advance(step, log, c, os[0]);
      if p.recorded then Passes(p.step, p.log, c, os[1..]) else p
  }

  /** Where deletion is entered: with no step yet, or logged out already. */
  predicate Enters(s: DeleteStep) {
    s.NotStarted? || s.LoggedOut?
  }

  /** A pass, or somebody who enters the account into deletion again: the operator, or a login that is a duplicate. */
  datatype Turn = APass(o: Outside) | Reentered(at: DeleteStep)

  /** What passes did before the last re-entry, one log an entry, and since then. */
  datatype History = History(past: seq<seq<Event>>, now: Pass)

  function Turns(step: DeleteStep, log: seq<Event>, c: Config, ts: seq<Turn>): History
    decreases |ts|
  {
    if ts == [] then History([], Pass(step, true, log, 0, None))
    else
      match ts[0]
      case APass(o) =>
        var p := Advance(step, log, c, o);
        if p.recorded then Turns(p.step, p.log, c, ts[1..]) else History([], p)
      case Reentered(at) =>
        if Enters(at) then
          var h := Turns(at, [], c, ts[1..]);
          h.(past := [log] + h.past)
        else Turns(step, log, c, ts[1..])
  }

  /** What was done from one entry on is in order. */
  ghost predicate InOrder(c: Config, h: History) {
    && (forall i | 0 <= i < |h.past| :: Ordered(c, h.past[i]) && RecordRemoved !in h.past[i])
    && Ordered(c, h.now.log) && (h.now.recorded <==> RecordRemoved !in h.now.log)
  }

  lemma {:induction false} TurnsInOrder(step: DeleteStep, log: seq<Event>, c: Config, ts: seq<Turn>)
    requires Sound(c, Pass(step, true, log, 0, None))
    ensures InOrder(c, Turns(step, log, c, ts))
    decreases |ts|
  {
    if ts != [] {
      match ts[0] {
        case APass(o) =>
          AdvanceKeepsSound(step, log, c, o);
          var p := Advance(step, log, c, o);
          if p.recorded {
            TurnsInOrder(p.step, p.log, c, ts[1..]);
          }
        case Reentered(at) =>
          if Enters(at) {
            TurnsInOrder(at, [], c, ts[1..]);
          } else {
            TurnsInOrder(step, log, c, ts[1..]);
          }
      }
    }
  }

  /**
   * Over any number of passes with failures anywhere, and with the account entered into deletion again
   * between them any number of times: since the latest entry storage is emptied only after the pod was seen
   * gone, the archive is purged only after storage was emptied, the Secret goes only after a purge or
   * without an archiver, and the record goes last, after the Secret.
   */
  lemma DeletionOrder(entry: DeleteStep, c: Config, ts: seq<Turn>)
    requires Enters(entry)
    ensures InOrder(c, Turns(entry, [], c, ts))
  {
    TurnsInOrder(entry, [], c, ts);
  }

  // ------------------------------------------------------------------ progress

  function Rank(s: DeleteStep): nat {
    match s
    case NotStarted => 8
    case LogoutWait(n) => if n == 0 then 8 else if n == 1 then 7 else 6
    case LoggedOut => 5
    case Scaled => 4
    case PodGone => 3
    case S3Deleted => 2
    case ArchivePurged => 1
  }

  predicate Faultless(o: Outside) {
    && o.adminSecret.Answer? && o.health.Answer? && o.logout.Answer? && o.podGone.Answer?
    && o.deletePrefix.Answer? && o.removeSecret.Answer? && o.removeRecord.Answer? && o.writes >= 6
  }

  /** Why a pass ended as it did. */
  predicate Explained(c: Config, o: Outside, from: DeleteStep, p: Pass) {
    match p.outcome
    case None => true
    case Some(Finished) => !p.recorded
    case Some(Moved) => p.recorded && p.step == LogoutWait(Waited(from) + 1) && Waited(from) + 1 < LOGOUT_WAIT_PASSES
    case Some(Blocked(PodStillThere)) => p.recorded && p.step == Scaled && o.podGone == Answer(false)
    case Some(Blocked(PurgeRefused)) =>
      p.recorded && p.step == S3Deleted && c.archiverUrl && (!c.archiverToken || !o.purge)
    case Some(Blocked(Error)) => p.recorded && !Faultless(o)
  }

  /** A stage under way after `done` writes of a pass that had `o.writes` to make. */
  predicate UnderWay(c: Config, o: Outside, from: DeleteStep, log: seq<Event>, p: Pass, rank: nat, done: nat) {
    && log <= p.log
    && Rank(p.step) <= Rank(from)
    && (p.outcome.None? ==> p.recorded && Rank(p.step) <= rank && p.writes + done >= o.writes)
    && Explained(c, o, from, p)
  }

  lemma LogoutExplained(c: Config, o: Outside, from: DeleteStep, log: seq<Event>, p: Pass)
    requires p == Pass(from, true, log, o.writes, None)
    ensures Explained(c, o, from, LogoutStage(p, o))
  {
  }

  lemma LogoutRanks(o: Outside, from: DeleteStep, log: seq<Event>, p: Pass)
    requires p == Pass(from, true, log, o.writes, None)
    ensures var q := LogoutStage(p, o);
      Rank(q.step) <= Rank(from) && (q.outcome.None? ==> Rank(q.step) <= 5 && q.writes + 1 >= o.writes)
  {
  }

  lemma LogoutProgress(c: Config, o: Outside, from: DeleteStep, log: seq<Event>, p: Pass)
    requires p == Pass(from, true, log, o.writes, None)
    ensures UnderWay(c, o, from, log, LogoutStage(p, o), 5, 1)
  {
    LogoutShape(p, o);
    LogoutExplained(c, o, from, log, p);
    LogoutRanks(o, from, log, p);
  }

  lemma ScaleProgress(c: Config, o: Outside, from: DeleteStep, log: seq<Event>, p: Pass)
    requires UnderWay(c, o, from, log, p, 5, 1)
    ensures UnderWay(c, o, from, log, ScaleStage(p), 4, 2)
  {
  }

  lemma PodProgress(c: Config, o: Outside, from: DeleteStep, log: seq<Event>, p: Pass)
    requires UnderWay(c, o, from, log, p, 4, 2)
    ensures UnderWay(c, o, from, log, PodStage(p, o), 3, 3)
  {
  }

  lemma S3Progress(c: Config, o: Outside, from: DeleteStep, log: seq<Event>, p: Pass)
    requires UnderWay(c, o, from, log, p, 3, 3)
    ensures UnderWay(c, o, from, log, S3Stage(p, o), 2, 4)
  {
  }

  lemma PurgeProgress(c: Config, o: Outside, from: DeleteStep, log: seq<Event>, p: Pass)
    requires UnderWay(c, o, from, log, p, 2, 4)
    ensures UnderWay(c, o, from, log, PurgeStage(p, c, o), 1, 5)
  {
  }

  lemma RemoveProgress(c: Config, o: Outside, from: DeleteStep, log: seq<Event>, p: Pass)
    requires UnderWay(c, o, from, log, p, 1, 5)
    ensures UnderWay(c, o, from, log, RemoveStage(p, o), 0, 5) && RemoveStage(p, o).outcome.Some?
  {
  }

  /**
   * Every pass finishes, lowers the rank by waiting once more (twice at most), or is blocked: by the pod,
   * by the purge, or by a call that failed; it never raises the rank and never rewrites the past.
   */
  lemma EveryPassProgresses(from: DeleteStep, log: seq<Event>, c: Config, o: Outside)
    ensures var p := Advance(from, log, c, o);
      && p.outcome.Some?
      && Explained(c, o, from, p)
      && log <= p.log
      && Rank(p.step) <= Rank(from)
      && (p.outcome.value == Moved ==> Rank(p.step) < Rank(from))
  {
    var p0 := Pass(from, true, log, o.writes, None);
    var p1 := LogoutStage(p0, o);
    var p2 := ScaleStage(p1);
    var p3 := PodStage(p2, o);
    var p4 := S3Stage(p3, o);
    var p5 := PurgeStage(p4, c, o);
    LogoutProgress(c, o, from, log, p0);
    ScaleProgress(c, o, from, log, p1);
    PodProgress(c, o, from, log, p2);
    S3Progress(c, o, from, log, p3);
    PurgeProgress(c, o, from, log, p4);
    RemoveProgress(c, o, from, log, p5);
    assert Advance(from, log, c, o) == RemoveStage(p5, o);
    MovedLowers(c, o, from, log, p0);
  }

  /** Only the logout stage ends a pass by waiting, and then it starts from no step or an earlier wait. */
  lemma MovedLowers(c: Config, o: Outside, from: DeleteStep, log: seq<Event>, p: Pass)
    requires p == Pass(from, true, log, o.writes, None)
    ensures Advance(from, log, c, o).outcome == Some(Moved) ==> Rank(Advance(from, log, c, o).step) < Rank(from)
  {
    var p1 := LogoutStage(p, o);
    if p1.outcome.None? {
      var p2 := ScaleStage(p1);
      var p3 := PodStage(p2, o);
      var p4 := S3Stage(p3, o);
      var p5 := PurgeStage(p4, c, o);
      assert p2.outcome != Some(Moved);
      assert p3.outcome != Some(Moved);
      assert p4.outcome != Some(Moved);
      assert p5.outcome != Some(Moved);
      assert RemoveStage(p5, o).outcome != Some(Moved);
    } else {
      assert Advance(from, log, c, o) == p1;
    }
  }

  predicate Ready(c: Config, o: Outside) {
    Faultless(o) && o.podGone == Answer(true) && (c.archiverUrl ==> c.archiverToken && o.purge)
  }

  /** When nothing blocks, only the wait for logout can delay the end, and by two passes at most. */
  lemma UnblockedPass(from: DeleteStep, log: seq<Event>, c: Config, o: Outside)
    requires Ready(c, o)
    ensures var p := Advance(from, log, c, o);
      p.outcome == Some(Finished)
      || (p.outcome == Some(Moved) && p.step == LogoutWait(Waited(from) + 1) && Waited(from) < 2)
  {
    EveryPassProgresses(from, log, c, o);
  }

  /** So at most three passes with nothing in the way end the deletion, whatever step it stands at. */
  lemma {:induction false} ThreePassesFinish(step: DeleteStep, log: seq<Event>, c: Config, os: seq<Outside>)
    requires os != [] && |os| + Waited(step) >= 3 && forall o | o in os :: Ready(c, o)
    ensures !Passes(step, log, c, os).recorded
    decreases |os|
  {
    assert os[0] in os;
    UnblockedPass(step, log, c, os[0]);
    EveryPassProgresses(step, log, c, os[0]);
    var p := Advance(step, log, c, os[0]);
    if p.recorded {
      assert forall o | o in os[1..] :: o in os;
      ThreePassesFinish(p.step, p.log, c, os[1..]);
    }
  }

  // ------------------------------------------------------------------ what the outside decides

  /** Waiting for the worker to log out is still the next thing to do. */
  predicate BeforeLogout(s: DeleteStep) {
    s.NotStarted? || s.LogoutWait?
  }

  /** The worker was asked to log out, and said it did or had no session. */
  predicate SaidLoggedOut(o: Outside) {
    && o.adminSecret == Answer(true) && o.health == Answer(true)
    && (o.logout == Answer(LogoutOk) || o.logout == Answer(NoSession))
  }

  /** No call of the logout stage throws, its write included. */
  predicate LogoutAnswers(o: Outside) {
    && o.adminSecret.Answer? && o.writes > 0
    && (o.adminSecret == Answer(true) ==> o.health.Answer? && (o.health == Answer(true) ==> o.logout.Answer?))
  }

  /** The logout stage lets the pass go on: nobody to ask, or a worker that is logged out, or the third pass. */
  predicate LogoutDone(from: DeleteStep, o: Outside) {
    o.adminSecret == Answer(false) || SaidLoggedOut(o) || (from.LogoutWait? && from.passes + 1 >= 3)
  }

  /** What an event of a pass says of the outside. */
  predicate Truthful(c: Config, o: Outside, e: Event) {
    match e
    case LogoutAttempt => o.adminSecret == Answer(true) && o.health == Answer(true)
    case PodSeenGone => o.podGone == Answer(true)
    case S3Emptied => o.deletePrefix.Answer?
    case PurgeAttempt => c.archiverUrl && c.archiverToken
    case PurgeDone => c.archiverUrl && c.archiverToken && o.purge
    case PurgeSkipped => !c.archiverUrl
    case SecretRemoved => o.removeSecret.Answer?
    case RecordRemoved => o.removeRecord.Answer?
    case _ => true
  }

  /** Every step a pass from `from` leaves behind was done in it. */
  predicate StepsDone(c: Config, o: Outside, from: DeleteStep, p: Pass) {
    && (BeforeLogout(from) && !BeforeLogout(p.step) ==> LogoutDone(from, o))
    && (Rank(from) >= 5 && Rank(p.step) < 5 ==> Kick in p.log)
    && (Rank(from) >= 4 && Rank(p.step) < 4 ==> PodSeenGone in p.log)
    && (Rank(from) >= 3 && Rank(p.step) < 3 ==> S3Emptied in p.log)
    && (Rank(from) >= 2 && Rank(p.step) < 2 ==> if c.archiverUrl then PurgeDone in p.log else PurgeSkipped in p.log)
    && (!p.recorded ==> p.step.ArchivePurged? && SecretRemoved in p.log && RecordRemoved in p.log)
  }

  /** A pass that ended in an error stands where a call threw, or its next write did. */
  predicate ErrorAt(o: Outside, p: Pass) {
    || p.writes == 0
    || (BeforeLogout(p.step) && !LogoutAnswers(o))
    || (p.step == Scaled && o.podGone.Throws?)
    || (p.step == PodGone && o.deletePrefix.Throws?)
    || (p.step == ArchivePurged && (o.removeSecret.Throws? || o.removeRecord.Throws?))
  }

  ghost predicate AllTruthful(c: Config, o: Outside, log: seq<Event>) {
    forall e | e in log :: Truthful(c, o, e)
  }

  /** A pass from `from`, as far as it has got, whose log holds what it did itself. */
  ghost predicate Honest(c: Config, o: Outside, from: DeleteStep, p: Pass) {
    && AllTruthful(c, o, p.log) && StepsDone(c, o, from, p)
    && (p.outcome == Some(Blocked(Error)) ==> ErrorAt(o, p))
  }

  /** What such a pass makes of the worker's answers. */
  predicate LogoutDecides(from: DeleteStep, o: Outside, p: Pass) {
    && (LogoutAttempt in p.log <==> BeforeLogout(from) && o.adminSecret == Answer(true) && o.health == Answer(true))
    && (BeforeLogout(from) && LogoutAnswers(o) ==>
         && (!BeforeLogout(p.step) <==> LogoutDone(from, o))
         && (!LogoutDone(from, o) ==>
              p.outcome == Some(Moved) && p.step == LogoutWait(if from.LogoutWait? then from.passes + 1 else 1)))
    && (BeforeLogout(from) && !LogoutAnswers(o) ==> p.outcome == Some(Blocked(Error)) && p.step == from)
  }

  /** The pass with the log in front of its own. */
  function Behind(log: seq<Event>, p: Pass): Pass {
    p.(log := log + p.log)
  }

  lemma AskBehind(log: seq<Event>, p: Pass, o: Outside)
    ensures AskLogout(Behind(log, p), o) == (Behind(log, AskLogout(p, o).0), AskLogout(p, o).1)
  {
    assert log + p.log + [LogoutAttempt] == log + (p.log + [LogoutAttempt]);
  }

  lemma LogoutBehind(log: seq<Event>, p: Pass, o: Outside)
    ensures LogoutStage(Behind(log, p), o) == Behind(log, LogoutStage(p, o))
  {
    AskBehind(log, p, o);
  }

  lemma ScaleBehind(log: seq<Event>, p: Pass)
    ensures ScaleStage(Behind(log, p)) == Behind(log, ScaleStage(p))
  {
    assert log + p.log + [Kick] == log + (p.log + [Kick]);
  }

  lemma PodBehind(log: seq<Event>, p: Pass, o: Outside)
    ensures PodStage(Behind(log, p), o) == Behind(log, PodStage(p, o))
  {
    assert log + p.log + [PodSeenGone] == log + (p.log + [PodSeenGone]);
  }

  lemma S3Behind(log: seq<Event>, p: Pass, o: Outside)
    ensures S3Stage(Behind(log, p), o) == Behind(log, S3Stage(p, o))
  {
    assert log + p.log + [S3Attempt] == log + (p.log + [S3Attempt]);
    assert log + p.log + [S3Attempt] + [S3Emptied] == log + (p.log + [S3Attempt] + [S3Emptied]);
  }

  lemma PurgeBehind(log: seq<Event>, p: Pass, c: Config, o: Outside)
    ensures PurgeStage(Behind(log, p), c, o) == Behind(log, PurgeStage(p, c, o))
  {
    assert log + p.log + [PurgeSkipped] == log + (p.log + [PurgeSkipped]);
    assert log + p.log + [PurgeAttempt] == log + (p.log + [PurgeAttempt]);
    assert log + p.log + [PurgeAttempt] + [PurgeDone] == log + (p.log + [PurgeAttempt] + [PurgeDone]);
  }

  lemma RemoveBehind(log: seq<Event>, p: Pass, o: Outside)
    ensures RemoveStage(Behind(log, p), o) == Behind(log, RemoveStage(p, o))
  {
    var q := p.log + [SecretAttempt];
    var r := q + [SecretRemoved] + [RecordAttempt];
    assert log + p.log + [SecretAttempt] == log + q;
    assert log + q + [SecretRemoved] + [RecordAttempt] == log + r;
    assert log + r + [RecordRemoved] == log + (r + [RecordRemoved]);
  }

  /** What was done before makes no difference to a pass. */
  lemma AdvanceBehind(from: DeleteStep, log: seq<Event>, c: Config, o: Outside)
    ensures Advance(from, log, c, o) == Behind(log, Advance(from, [], c, o))
  {
    var p0 := Pass(from, true, [], o.writes, None);
    assert Behind(log, p0) == Pass(from, true, log, o.writes, None) by { assert log + [] == log; }
    LogoutBehind(log, p0, o);
    var p1 := LogoutStage(p0, o);
    ScaleBehind(log, p1);
    var p2 := ScaleStage(p1);
    PodBehind(log, p2, o);
    var p3 := PodStage(p2, o);
    S3Behind(log, p3, o);
    var p4 := S3Stage(p3, o);
    PurgeBehind(log, p4, c, o);
    RemoveBehind(log, PurgeStage(p4, c, o), o);
  }

  /** A stage under way: what Honest says, and that the pass has not gone back. */
  ghost predicate OnTheWay(c: Config, o: Outside, from: DeleteStep, p: Pass) {
    Honest(c, o, from, p) && (p.outcome.None? ==> p.recorded) && Rank(p.step) <= Rank(from)
  }

  lemma SayIsTruthful(c: Config, o: Outside, log: seq<Event>, e: Event)
    requires AllTruthful(c, o, log) && Truthful(c, o, e)
    ensures AllTruthful(c, o, log + [e])
  {
  }

  lemma LogoutLeaves(from: DeleteStep, o: Outside)
    ensures var p := LogoutStage(Pass(from, true, [], o.writes, None), o);
      && p.recorded && (p.log == [] || p.log == [LogoutAttempt])
      && (!BeforeLogout(from) ==> p.step == from && p.log == [])
      && (BeforeLogout(from) ==> Rank(p.step) >= 5 && (p.step.LoggedOut? || BeforeLogout(p.step)))
      && Rank(p.step) <= Rank(from)
  {
  }

  lemma LogoutErrorAt(from: DeleteStep, o: Outside)
    ensures var p := LogoutStage(Pass(from, true, [], o.writes, None), o);
      p.outcome == Some(Blocked(Error)) ==> ErrorAt(o, p)
  {
  }

  lemma StageDecides(from: DeleteStep, o: Outside)
    ensures var p := LogoutStage(Pass(from, true, [], o.writes, None), o);
      && LogoutDecides(from, o, p) && (BeforeLogout(p.step) ==> p.outcome.Some?)
      && (BeforeLogout(from) && !BeforeLogout(p.step) ==> LogoutDone(from, o))
  {
  }

  lemma LogoutOnTheWay(c: Config, o: Outside, from: DeleteStep)
    ensures OnTheWay(c, o, from, LogoutStage(Pass(from, true, [], o.writes, None), o))
  {
    var p := LogoutStage(Pass(from, true, [], o.writes, None), o);
    LogoutLeaves(from, o);
    LogoutErrorAt(from, o);
    StageDecides(from, o);
    assert LogoutAttempt in p.log ==> Truthful(c, o, LogoutAttempt);
    assert forall e | e in p.log :: e == LogoutAttempt;
  }

  lemma ScaleOnTheWay(c: Config, o: Outside, from: DeleteStep, p: Pass)
    requires OnTheWay(c, o, from, p)
    ensures OnTheWay(c, o, from, ScaleStage(p))
  {
    SayIsTruthful(c, o, p.log, Kick);
  }

  lemma PodOnTheWay(c: Config, o: Outside, from: DeleteStep, p: Pass)
    requires OnTheWay(c, o, from, p)
    ensures OnTheWay(c, o, from, PodStage(p, o))
  {
    if o.podGone == Answer(true) {
      SayIsTruthful(c, o, p.log, PodSeenGone);
    }
  }

  lemma S3OnTheWay(c: Config, o: Outside, from: DeleteStep, p: Pass)
    requires OnTheWay(c, o, from, p)
    ensures OnTheWay(c, o, from, S3Stage(p, o))
  {
    SayIsTruthful(c, o, p.log, S3Attempt);
    if o.deletePrefix.Answer? {
      SayIsTruthful(c, o, p.log + [S3Attempt], S3Emptied);
    }
  }

  lemma PurgeOnTheWay(c: Config, o: Outside, from: DeleteStep, p: Pass)
    requires OnTheWay(c, o, from, p)
    ensures OnTheWay(c, o, from, PurgeStage(p, c, o))
  {
    if !c.archiverUrl {
      SayIsTruthful(c, o, p.log, PurgeSkipped);
    } else if c.archiverToken {
      SayIsTruthful(c, o, p.log, PurgeAttempt);
      if o.purge {
        SayIsTruthful(c, o, p.log + [PurgeAttempt], PurgeDone);
      }
    }
  }

  lemma RemoveOnTheWay(c: Config, o: Outside, from: DeleteStep, p: Pass)
    requires OnTheWay(c, o, from, p)
    ensures OnTheWay(c, o, from, RemoveStage(p, o))
  {
    SayIsTruthful(c, o, p.log, SecretAttempt);
    if o.removeSecret.Answer? {
      var q := p.log + [SecretAttempt];
      SayIsTruthful(c, o, q, SecretRemoved);
      SayIsTruthful(c, o, q + [SecretRemoved], RecordAttempt);
      if o.removeRecord.Answer? {
        SayIsTruthful(c, o, q + [SecretRemoved] + [RecordAttempt], RecordRemoved);
      }
    }
  }

  lemma PassOnTheWay(from: DeleteStep, c: Config, o: Outside)
    ensures OnTheWay(c, o, from, Advance(from, [], c, o))
  {
    var p1 := LogoutStage(Pass(from, true, [], o.writes, None), o);
    LogoutOnTheWay(c, o, from);
    ScaleOnTheWay(c, o, from, p1);
    var p2 := ScaleStage(p1);
    PodOnTheWay(c, o, from, p2);
    var p3 := PodStage(p2, o);
    S3OnTheWay(c, o, from, p3);
    var p4 := S3Stage(p3, o);
    PurgeOnTheWay(c, o, from, p4);
    RemoveOnTheWay(c, o, from, PurgeStage(p4, c, o));
  }

  /** The pass without what its log held before. */
  function Own(log: seq<Event>, p: Pass): Pass
    requires |log| <= |p.log|
  {
    p.(log := p.log[|log|..])
  }

  lemma OwnOfAdvance(from: DeleteStep, log: seq<Event>, c: Config, o: Outside)
    ensures var p := Advance(from, log, c, o); log <= p.log && Own(log, p) == Advance(from, [], c, o)
  {
    AdvanceBehind(from, log, c, o);
    var a := Advance(from, [], c, o).log;
    assert (log + a)[|log|..] == a;
  }

  /**
   * Every pass, whatever the outside does: what it says happened did, every step it leaves behind was done in
   * it, and it stops with an error only at a call that threw.
   */
  lemma PassIsHonest(from: DeleteStep, log: seq<Event>, c: Config, o: Outside)
    ensures var p := Advance(from, log, c, o); log <= p.log && Honest(c, o, from, Own(log, p))
  {
    OwnOfAdvance(from, log, c, o);
    PassOnTheWay(from, c, o);
  }

  /** The stages after the logout stage say nothing of it and do not go back to it. */
  predicate After(p: Pass, q: Pass) {
    && (LogoutAttempt in q.log <==> LogoutAttempt in p.log)
    && (!BeforeLogout(p.step) ==> !BeforeLogout(q.step))
    && (p.outcome.Some? || BeforeLogout(p.step) ==> q == p)
  }

  lemma ScaleComesAfter(p: Pass)
    ensures After(p, ScaleStage(p))
  {
  }

  lemma PodComesAfter(p: Pass, o: Outside)
    ensures After(p, PodStage(p, o))
  {
  }

  lemma S3ComesAfter(p: Pass, o: Outside)
    ensures After(p, S3Stage(p, o))
  {
  }

  lemma PurgeComesAfter(p: Pass, c: Config, o: Outside)
    ensures After(p, PurgeStage(p, c, o))
  {
  }

  lemma RemoveComesAfter(p: Pass, o: Outside)
    ensures After(p, RemoveStage(p, o))
  {
  }

  lemma RestComesAfter(p1: Pass, c: Config, o: Outside)
    ensures After(p1, RemoveStage(PurgeStage(S3Stage(PodStage(ScaleStage(p1), o), o), c, o), o))
  {
    var p2 := ScaleStage(p1);
    var p3 := PodStage(p2, o);
    var p4 := S3Stage(p3, o);
    var p5 := PurgeStage(p4, c, o);
    ScaleComesAfter(p1);
    PodComesAfter(p2, o);
    S3ComesAfter(p3, o);
    PurgeComesAfter(p4, c, o);
    RemoveComesAfter(p5, o);
  }

  /**
   * A pass gets past the logout exactly if there is no admin token, the worker said it is logged out or had no
   * session, or this is the third pass; otherwise it waits once more. It asks exactly a healthy worker it has
   * the token of.
   */
  lemma LogoutExactly(from: DeleteStep, log: seq<Event>, c: Config, o: Outside)
    ensures var p := Advance(from, log, c, o); log <= p.log && LogoutDecides(from, o, Own(log, p))
  {
    var p1 := LogoutStage(Pass(from, true, [], o.writes, None), o);
    OwnOfAdvance(from, log, c, o);
    StageDecides(from, o);
    RestComesAfter(p1, c, o);
  }

  // ------------------------------------------------------------------ the stored step and the desired replicas

  /** The text stored in the account's delete_step. */
  function Encode(s: DeleteStep): Option<string> {
    match s
    case NotStarted => None
    case LogoutWait(n) => Some("logout_wait:" + Print(n))
    case LoggedOut => Some("logged_out")
    case Scaled => Some("scaled")
    case PodGone => Some("pod_gone")
    case S3Deleted => Some("s3_deleted")
    case ArchivePurged => Some("archive_purged")
  }

  /** How a pass reads it: a prefix test, then the number after the colon; other texts match no step. */
  function Decode(t: Option<string>): Option<DeleteStep> {
    if t.None? then Some(NotStarted)
    else if |t.value| > 12 && t.value[..12] == "logout_wait:" then
      if AllDigits(t.value[12..]) then Some(LogoutWait(Value(t.value[12..]))) else None
    else if t.value == "logged_out" then Some(LoggedOut)
    else if t.value == "scaled" then Some(Scaled)
    else if t.value == "pod_gone" then Some(PodGone)
    else if t.value == "s3_deleted" then Some(S3Deleted)
    else if t.value == "archive_purged" then Some(ArchivePurged)
    else None
  }

  lemma DecodeEncode(s: DeleteStep)
    ensures Decode(Encode(s)) == Some(s)
  {
    if s.LogoutWait? {
      ValueOfPrint(s.passes);
      var t := "logout_wait:" + Print(s.passes);
      assert t[12..] == Print(s.passes) && t[..12] == "logout_wait:";
      assert |t| > 12 && Encode(s) == Some(t);
      assert Decode(Some(t)) == Some(LogoutWait(Value(Print(s.passes))));
    } else if s.S3Deleted? {
      assert "s3_deleted"[0] != "logged_out"[0];
    } else if s.ArchivePurged? {
      assert "archive_purged"[..12][0] != "logout_wait:"[0];
    }
  }

  const SCALED_DOWN_STEPS: set<string> := {"logged_out", "scaled", "pod_gone", "s3_deleted", "archive_purged"}

  /** The replicas the reconciler asks for. */
  function Replicas(deleting: bool, step: Option<string>): nat {
    if deleting && step.GetOr("") in SCALED_DOWN_STEPS then 0 else 1
  }

  /** The names of the scaled-down steps are shorter than a stored wait, or do not start as one. */
  lemma WaitIsNotScaledDown(t: string)
    requires |t| > 12 && t[0] == 'l'
    ensures t !in SCALED_DOWN_STEPS
  {
    assert t != "logged_out" && t != "scaled" && t != "pod_gone" && t != "s3_deleted";
    assert "archive_purged"[0] == 'a';
  }

  lemma WaitText(n: nat)
    ensures |"logout_wait:" + Print(n)| > 12 && ("logout_wait:" + Print(n))[0] == 'l'
  {
    ValueOfPrint(n);
    assert Print(n) != "";
  }

  /** The worker is asked to stop exactly from the logged-out step on, and stays so over any later pass. */
  lemma ReplicasFollowRank(s: DeleteStep)
    ensures Replicas(true, Encode(s)) == 0 <==> Rank(s) <= 5
    ensures Replicas(false, Encode(s)) == 1
  {
    if s.LogoutWait? {
      WaitText(s.passes);
      WaitIsNotScaledDown("logout_wait:" + Print(s.passes));
    }
  }

  lemma {:induction false} ReplicasStayZero(step: DeleteStep, log: seq<Event>, c: Config, os: seq<Outside>)
    requires Rank(step) <= 5
    ensures var p := Passes(step, log, c, os); p.recorded ==> Rank(p.step) <= 5 && Replicas(true, Encode(p.step)) == 0
    decreases |os|
  {
    if os == [] {
      ReplicasFollowRank(step);
    } else {
      EveryPassProgresses(step, log, c, os[0]);
      var p := Advance(step, log, c, os[0]);
      if p.recorded {
        ReplicasStayZero(p.step, p.log, c, os[1..]);
      }
    }
  }

  // ------------------------------------------------------------------ the pass, in place

  class DeletionRun {
    var step: DeleteStep
    var recorded: bool
    var log: seq<Event>
    var writes: nat

    function Now(outcome: Option<Outcome>): Pass
      reads this
    {
      Pass(step, recorded, log, writes, outcome)
    }

    constructor (entry: DeleteStep)
      ensures step == entry && recorded && log == []
    {
      step, recorded, log, writes := entry, true, [], 0;
    }

    /** updateAccount with a new step; false when the call throws. */
    method SetStep(s: DeleteStep) returns (ok: bool)
      modifies this`step, this`writes
      ensures ok <==> old(writes) > 0
      ensures ok ==> step == s && writes == old(writes) - 1
      ensures !ok ==> step == old(step) && writes == old(writes)
    {
      ok := writes > 0;
      if ok {
        step, writes := s, writes - 1;
      }
    }

    method Logout(o: Outside) returns (r: Option<Outcome>)
      requires step.NotStarted? || step.LogoutWait?
      modifies this
      ensures Now(r) == LogoutStage(old(Now(None)), o)
    {
      var waited := Waited(step);
      if o.adminSecret.Throws? { return Some(Blocked(Error)); }
      var done := !o.adminSecret.value;
      if o.adminSecret.value {
        if o.health.Throws? { return Some(Blocked(Error)); }
        if o.health.value {
          log := log + [LogoutAttempt];
          if o.logout.Throws? { return Some(Blocked(Error)); }
          done := o.logout.value == LogoutOk || o.logout.value == NoSession;
        }
        if !done && waited + 1 >= LOGOUT_WAIT_PASSES {
          done := true;
        }
      }
      if !done {
        var ok := SetStep(LogoutWait(waited + 1));
        return Some(if ok then Moved else Blocked(Error));
      }
      var ok := SetStep(LoggedOut);
      r := if ok then None else Some(Blocked(Error));
    }

    method PurgeArchive(c: Config, o: Outside) returns (r: Option<Outcome>)
      requires step.S3Deleted?
      modifies this
      ensures Now(r) == PurgeStage(old(Now(None)), c, o)
    {
      if c.archiverUrl && !c.archiverToken { return Some(Blocked(PurgeRefused)); }
      if c.archiverUrl {
        log := log + [PurgeAttempt];
        if !o.purge { return Some(Blocked(PurgeRefused)); }
        log := log + [PurgeDone];
      } else {
        log := log + [PurgeSkipped];
      }
      var ok := SetStep(ArchivePurged);
      r := if ok then None else Some(Blocked(Error));
    }

    method Scale() returns (r: Option<Outcome>)
      requires step.LoggedOut?
      modifies this
      ensures Now(r) == ScaleStage(old(Now(None)))
    {
      log := log + [Kick];
      var ok := SetStep(Scaled);
      r := if ok then None else Some(Blocked(Error));
    }

    method AwaitPod(o: Outside) returns (r: Option<Outcome>)
      requires step.Scaled?
      modifies this
      ensures Now(r) == PodStage(old(Now(None)), o)
    {
      if o.podGone.Throws? { return Some(Blocked(Error)); }
      if !o.podGone.value { return Some(Blocked(PodStillThere)); }
      log := log + [PodSeenGone];
      var ok := SetStep(PodGone);
      r := if ok then None else Some(Blocked(Error));
    }

    method EmptyStorage(o: Outside) returns (r: Option<Outcome>)
      requires step.PodGone?
      modifies this
      ensures Now(r) == S3Stage(old(Now(None)), o)
    {
      log := log + [S3Attempt];
      if o.deletePrefix.Throws? { return Some(Blocked(Error)); }
      log := log + [S3Emptied];
      var ok := SetStep(S3Deleted);
      r := if ok then None else Some(Blocked(Error));
    }

    method Remove(o: Outside) returns (r: Option<Outcome>)
      requires step.ArchivePurged?
      modifies this
      ensures Now(r) == RemoveStage(old(Now(None)), o)
    {
      log := log + [SecretAttempt];
      if o.removeSecret.Throws? { return Some(Blocked(Error)); }
      log := log + [SecretRemoved];
      log := log + [RecordAttempt];
      if o.removeRecord.Throws? { return Some(Blocked(Error)); }
      log := log + [RecordRemoved];
      recorded := false;
      r := Some(Finished);
    }

    /** One pass: each stage runs if the step stands there when it is reached. */
    method RunStages(c: Config, o: Outside) returns (outcome: Option<Outcome>)
      requires recorded
      modifies this
      ensures Now(outcome) == Advance(old(step), old(log), c, o)
      ensures outcome.Some?
    {
      EveryPassProgresses(step, log, c, o);
      writes := o.writes;
      outcome := None;
      if step.NotStarted? || step.LogoutWait? {
        outcome := Logout(o);
      }
      if outcome.None? && step.LoggedOut? {
        outcome := Scale();
      }
      if outcome.None? && step.Scaled? {
        outcome := AwaitPod(o);
      }
      if outcome.None? && step.PodGone? {
        outcome := EmptyStorage(o);
      }
      if outcome.None? && step.S3Deleted? {
        outcome := PurgeArchive(c, o);
      }
      if outcome.None? && step.ArchivePurged? {
        outcome := Remove(o);
      }
    }

    /** What one pass did, in terms of what the outside answered. */
    method AdvanceDeletion(c: Config, o: Outside) returns (outcome: Option<Outcome>)
      requires recorded
      modifies this
      ensures Now(outcome) == Advance(old(step), old(log), c, o)
      ensures outcome.Some? && Explained(c, o, old(step), Now(outcome))
      ensures old(log) <= log && LogoutDecides(old(step), o, Own(old(log), Now(outcome)))
      ensures Honest(c, o, old(step), Own(old(log), Now(outcome)))
    {
      EveryPassProgresses(step, log, c, o);
      LogoutExactly(step, log, c, o);
      PassIsHonest(step, log, c, o);
      outcome := RunStages(c, o);
    }
  }
}
