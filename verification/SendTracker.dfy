/**
 * Waiting for the outcome of a send (src/bridge/message_send_tracker.cpp): resolve calls, timers and
 * the shutdown drain race for each wait. Timers are never cancelled; a timer knows only the message id.
 */
module SendTracker {
  import opened Options
  import opened ClaimRace

  datatype Verdict = Resolved(outcome: int) | TimedOut(timer: nat) | Drained

  datatype State = State(
    waits: nat,             // waitFor calls so far; a wait is named by its number
    collided: set<nat>,     // waits whose message id was already waited for
    unset: map<nat, int>,   // registered waits whose own thread has not set their timer yet, and their ids
    timers: map<nat, int>,  // pending timers: the wait each was set for, and the id it will claim
    race: Race<int, nat, Verdict>)

  datatype Action =
    | Register(id: int)
    | SetTimer(wait: nat)
    | TimerFires(wait: nat)
    | ResolveWith(id: int, outcome: int)
    | DrainAll(order: seq<int>)
    | Settle(claim: nat)
    | Wake(claim: nat, loopRunning: bool)
    | Resume(resumption: nat)

  function Start(): State {
    State(0, {}, map[], map[], Empty())
  }

  function Step(s: State, a: Action): State {
    match a
    case Register(id) =>
      var w := s.waits + 1;
      if id in s.race.table then s.(waits := w, collided := s.collided + {w})
      else s.(waits := w, unset := s.unset[w := id], race := ClaimRace.Step(s.race, Insert(id, w)))
    case SetTimer(w) =>
      if w in s.unset then s.(unset := s.unset - {w}, timers := s.timers[w := s.unset[w]]) else s
    case TimerFires(w) =>
      if w in s.timers then
        s.(timers := s.timers - {w}, race := ClaimRace.Step(s.race, Claim([s.timers[w]], TimedOut(w))))
      else s
    case ResolveWith(id, outcome) => s.(race := ClaimRace.Step(s.race, Claim([id], Resolved(outcome))))
    case DrainAll(order) =>
      if (set k | k in order) == s.race.table.Keys then s.(race := ClaimRace.Step(s.race, Claim(order, Drained))) else s
    case Settle(i) => s.(race := ClaimRace.Step(s.race, Resolve(i)))
    case Wake(i, running) => s.(race := ClaimRace.Step(s.race, ClaimRace.Action.Wake(i, running)))
    case Resume(i) => s.(race := ClaimRace.Step(s.race, RunQueued(i)))
  }

  function Run(s: State, acts: seq<Action>): State
    decreases |acts|
  {
    if acts == [] then s else Run(Step(s, acts[0]), acts[1..])
  }

  /** What await_resume returns for a decided wait. */
  function ResultOf(v: Verdict): Option<int> {
    match v
    case Resolved(outcome) => Some(outcome)
    case TimedOut(_) => None
    case Drained => None
  }

  /** The timer of the wait registered under k is pending, or its own thread is about to set it. */
  predicate HasTimer(s: State, k: int)
    requires k in s.race.table
  {
    var w := s.race.table[k];
    (w in s.timers && s.timers[w] == k) || (w in s.unset && s.unset[w] == k)
  }

  ghost predicate WaitsOk(s: State) {
    && (forall w | w in s.race.verdicts :: 1 <= w <= s.waits && w !in s.collided)
    && (forall w | w in s.collided :: 1 <= w <= s.waits)
    && (forall w | 1 <= w <= s.waits :: w in s.race.verdicts || w in s.collided)
  }

  /** Each wait has one timer at most, and each registered wait has one. */
  ghost predicate TimersOk(s: State) {
    && s.timers.Keys <= s.race.verdicts.Keys && s.unset.Keys <= s.race.verdicts.Keys
    && s.timers.Keys !! s.unset.Keys
    && (forall k | k in s.race.table :: HasTimer(s, k))
  }

  ghost predicate Own(s: State) {
    WaitsOk(s) && TimersOk(s)
  }

  ghost predicate Inv(s: State) {
    ClaimRace.Inv(s.race) && Own(s)
  }

  /** The step of the race a step is, or none. */
  function RaceSteps(s: State, a: Action): seq<ClaimRace.Action<int, nat, Verdict>> {
    match a
    case Register(id) => [Insert(id, s.waits + 1)]
    case SetTimer(_) => []
    case TimerFires(w) => if w in s.timers then [Claim([s.timers[w]], TimedOut(w))] else []
    case ResolveWith(id, outcome) => [Claim([id], Resolved(outcome))]
    case DrainAll(order) => if (set k | k in order) == s.race.table.Keys then [Claim(order, Drained)] else []
    case Settle(i) => [Resolve(i)]
    case Wake(i, running) => [ClaimRace.Action.Wake(i, running)]
    case Resume(i) => [RunQueued(i)]
  }

  lemma StepIsRaceStep(s: State, a: Action)
    ensures Step(s, a).race == ClaimRace.Run(s.race, RaceSteps(s, a))
  {
    var steps := RaceSteps(s, a);
    assert steps != [] ==> steps[1..] == [];
  }

  lemma ClaimKeepsOwn(s: State, ks: seq<int>, v: Verdict)
    requires Own(s)
    ensures Own(s.(race := ClaimAll(s.race, ks, v)))
  {
    ClaimAllEffect(s.race, ks, v);
    var r := s.(race := ClaimAll(s.race, ks, v));
    forall k | k in r.race.table ensures HasTimer(r, k) {
      assert HasTimer(s, k);
    }
  }

  lemma RegisterKeepsOwn(s: State, id: int)
    requires Own(s)
    ensures Own(Step(s, Register(id)))
  {
    var r := Step(s, Register(id));
    forall k | k in r.race.table ensures HasTimer(r, k) {
      assert k in s.race.table ==> HasTimer(s, k);
    }
  }

  lemma SetTimerKeepsOwn(s: State, w: nat)
    requires Own(s)
    ensures Own(Step(s, SetTimer(w)))
  {
    var r := Step(s, SetTimer(w));
    forall k | k in r.race.table ensures HasTimer(r, k) {
      assert HasTimer(s, k);
    }
  }

  lemma TimerKeepsOwn(s: State, w: nat)
    requires Own(s)
    ensures Own(Step(s, TimerFires(w)))
  {
    if w in s.timers {
      var r := Step(s, TimerFires(w));
      ClaimAllEffect(s.race, [s.timers[w]], TimedOut(w));
      assert s.timers[w] in [s.timers[w]];
      forall k | k in r.race.table ensures HasTimer(r, k) {
        assert HasTimer(s, k);
      }
    }
  }

  predicate SettlesOrResumes(a: Action) {
    a.Settle? || a.Wake? || a.Resume?
  }

  lemma SettleEffect(s: State, a: Action)
    requires SettlesOrResumes(a)
    ensures var r := Step(s, a);
      && r == s.(race := r.race) && r.race.table == s.race.table && r.race.claims == s.race.claims
      && r.race.verdicts.Keys == s.race.verdicts.Keys
  {
  }

  lemma SettleKeepsOwn(s: State, a: Action)
    requires Own(s) && SettlesOrResumes(a)
    ensures Own(Step(s, a))
  {
    var r := Step(s, a);
    SettleEffect(s, a);
    forall k | k in r.race.table ensures HasTimer(r, k) {
      assert HasTimer(s, k);
    }
  }

  lemma StepKeepsOwn(s: State, a: Action)
    requires Own(s)
    ensures Own(Step(s, a))
  {
    match a {
      case Register(id) => RegisterKeepsOwn(s, id);
      case SetTimer(w) => SetTimerKeepsOwn(s, w);
      case TimerFires(w) => TimerKeepsOwn(s, w);
      case ResolveWith(id, outcome) => ClaimKeepsOwn(s, [id], Resolved(outcome));
      case DrainAll(order) => ClaimKeepsOwn(s, order, Drained);
      case _ => SettleKeepsOwn(s, a);
    }
  }

  lemma StepKeepsInv(s: State, a: Action)
    requires Inv(s)
    ensures Inv(Step(s, a))
  {
    StepKeepsOwn(s, a);
    StepIsRaceStep(s, a);
    ClaimRace.RunKeepsInv(s.race, RaceSteps(s, a));
  }

  lemma {:induction false} RunKeepsInv(s: State, acts: seq<Action>)
    requires Inv(s)
    ensures Inv(Run(s, acts))
    decreases |acts|
  {
    if acts != [] {
      StepKeepsInv(s, acts[0]);
      RunKeepsInv(Step(s, acts[0]), acts[1..]);
    }
  }

  lemma InvAtStart()
    ensures Inv(Start())
  {
  }

  lemma InvInRuns(acts: seq<Action>)
    ensures Inv(Run(Start(), acts))
  {
    InvAtStart();
    RunKeepsInv(Start(), acts);
  }

  // ------------------------------------------------------------------ over every run

  /**
   * Every wait either collided (and returns nothing at once) or resumes at most once, and does so once it
   * is decided and its decider has come to it. It is decided with Some(outcome) exactly when a resolve call
   * with that outcome took it out, and with None exactly when a timer or the drain did.
   */
  lemma EveryWaitDecidedOnce(acts: seq<Action>, w: nat)
    requires 1 <= w <= Run(Start(), acts).waits
    ensures var s := Run(Start(), acts);
      && ((w in s.collided) != (w in s.race.verdicts))
      && (w in s.collided ==> w !in s.race.resumptions && !Claimed(s.race, w))
      && (w in s.race.verdicts ==> ResumedIfDecided(s.race, w))
      && (w in s.race.verdicts && s.race.verdicts[w].Some? ==>
           exists i: nat :: OnlyClaim(s.race, w, i) && s.race.claims[i].verdict == s.race.verdicts[w].value)
  {
    InvAtStart();
    RunKeepsInv(Start(), acts);
    var s := Run(Start(), acts);
    if w in s.race.verdicts {
      OnePlaceEach(s.race, w);
      if s.race.verdicts[w].Some? {
        var i: nat :| OnlyClaim(s.race, w, i);
      }
    }
  }

  /** A decided wait has the one claim that decided it, and a result exactly if that claim was made by resolveWith. */
  ghost predicate NamesResolver(s: State, w: nat, i: nat)
    requires w in s.race.verdicts && s.race.verdicts[w].Some?
  {
    && OnlyClaim(s.race, w, i)
    && (ResultOf(s.race.verdicts[w].value).Some? <==> s.race.claims[i].verdict.Resolved?)
    && (s.race.claims[i].verdict.Resolved? ==>
         ResultOf(s.race.verdicts[w].value) == Some(s.race.claims[i].verdict.outcome))
  }

  lemma DecidedNamesResolver(s: State, w: nat)
    requires ClaimRace.Inv(s.race) && w in s.race.verdicts && s.race.verdicts[w].Some?
    ensures exists i: nat :: NamesResolver(s, w, i)
  {
    OnePlaceEach(s.race, w);
    var i: nat :| OnlyClaim(s.race, w, i);
    assert NamesResolver(s, w, i);
  }

  /** So in every run. */
  lemma ResultNamesTheResolver(acts: seq<Action>, w: nat)
    requires var s := Run(Start(), acts); w in s.race.verdicts && s.race.verdicts[w].Some?
    ensures exists i: nat :: NamesResolver(Run(Start(), acts), w, i)
  {
    InvAtStart();
    RunKeepsInv(Start(), acts);
    DecidedNamesResolver(Run(Start(), acts), w);
  }

  /** Once a wait's id is out of the table, its timer and further resolve calls change nothing but the timer itself. */
  lemma LateIsNoOp(s: State, id: int, w: nat, outcome: int)
    requires id !in s.race.table
    ensures Step(s, ResolveWith(id, outcome)) == s
    ensures w in s.timers && s.timers[w] == id ==> Step(s, TimerFires(w)) == s.(timers := s.timers - {w})
  {
    assert ClaimAll(s.race, [id], Resolved(outcome)) == ClaimAll(s.race, [id][1..], Resolved(outcome));
    assert ClaimAll(s.race, [id], TimedOut(w)) == ClaimAll(s.race, [id][1..], TimedOut(w));
  }

  /** A wait still in the table has its timer pending, or its own thread is about to set it: no wait is unbounded. */
  lemma EveryRegisteredWaitHasItsTimer(acts: seq<Action>, id: int)
    requires id in Run(Start(), acts).race.table
    ensures HasTimer(Run(Start(), acts), id)
  {
    InvAtStart();
    RunKeepsInv(Start(), acts);
  }

  /** In every run: the outcome of a send reaches the wait registered for it, which is decided and resumed with it. */
  lemma OutcomeReachesItsWait(acts: seq<Action>, s: State, id: int, outcome: int, running: bool)
    requires s == Run(Start(), acts) && id in s.race.table
    ensures var w := s.race.table[id]; var n := |s.race.claims|;
      var r := Step(Step(Step(s, ResolveWith(id, outcome)), Settle(n)), Action.Wake(n, running)).race;
      && id !in r.table && r.verdicts == s.race.verdicts[w := Some(Resolved(outcome))]
      && r.resumptions == s.race.resumptions + [w]
  {
    InvInRuns(acts);
    OutcomeEffect(s, id, outcome, running);
  }

  lemma OutcomeEffect(s: State, id: int, outcome: int, running: bool)
    requires TableOk(s.race) && id in s.race.table && |s.race.claims| !in s.race.waking
    ensures var w := s.race.table[id]; var n := |s.race.claims|;
      var r := Step(Step(Step(s, ResolveWith(id, outcome)), Settle(n)), Action.Wake(n, running)).race;
      && id !in r.table && r.verdicts == s.race.verdicts[w := Some(Resolved(outcome))]
      && r.resumptions == s.race.resumptions + [w]
  {
    ClaimThenResolve(s.race, id, Resolved(outcome));
  }

  /** The race's part of a run. */
  function RaceRun(s: State, acts: seq<Action>): seq<ClaimRace.Action<int, nat, Verdict>>
    decreases |acts|
  {
    if acts == [] then [] else RaceSteps(s, acts[0]) + RaceRun(Step(s, acts[0]), acts[1..])
  }

  lemma {:induction false} RunIsRaceRun(s: State, acts: seq<Action>)
    ensures Run(s, acts).race == ClaimRace.Run(s.race, RaceRun(s, acts))
    decreases |acts|
  {
    if acts != [] {
      StepIsRaceStep(s, acts[0]);
      RunIsRaceRun(Step(s, acts[0]), acts[1..]);
      ClaimRace.RunAppend(s.race, RaceSteps(s, acts[0]), RaceRun(Step(s, acts[0]), acts[1..]));
    }
  }

  lemma DrainTakesAll(s: State, order: seq<int>)
    requires (set k | k in order) == s.race.table.Keys
    ensures forall k | k in s.race.table :: k in order
    ensures Step(s, DrainAll(order)).race == ClaimAll(s.race, order, Drained)
  {
    var visited := set k | k in order;
    forall k | k in s.race.table ensures k in order {
      assert k in visited;
    }
  }

  /**
   * In every run: after the drain no wait registered before it is ever in the table again, whatever follows, and it
   * is decided exactly once nobody holds it.
   */
  lemma DrainEndsEveryWait(acts: seq<Action>, s: State, order: seq<int>, more: seq<Action>, w: nat)
    requires s == Run(Start(), acts) && w in s.race.verdicts && (set k | k in order) == s.race.table.Keys
    ensures var r := Run(Step(s, DrainAll(order)), more).race;
      && w in r.verdicts && !Registered(r, w)
      && (r.verdicts[w].Some? <==> !Held(r, w))
  {
    InvInRuns(acts);
    DrainTakesAll(s, order);
    RunIsRaceRun(Step(s, DrainAll(order)), more);
    DrainLeavesOnlyHands(s.race, order, Drained, RaceRun(Step(s, DrainAll(order)), more), w);
  }

  // ------------------------------------------------------------------ whose timer ends a wait

  predicate TimerPending(s: State, id: int) {
    id in s.timers.Values
  }

  /** A wait that was registered on the id is about to set its timer. */
  predicate TimerToBeSet(s: State, id: int) {
    id in s.unset.Values
  }

  /** A timer for the id is pending or still to be set. */
  predicate TimerComing(s: State, id: int) {
    TimerPending(s, id) || TimerToBeSet(s, id)
  }

  /** Somebody else's timer ended the wait. */
  predicate EndedByAnother(s: State, w: nat) {
    && w in s.race.verdicts && s.race.verdicts[w].Some?
    && s.race.verdicts[w].value.TimedOut? && s.race.verdicts[w].value.timer != w
  }

  /** Some continuation lets somebody else's timer end the wait. */
  ghost predicate Exposed(s: State, w: nat) {
    exists acts :: EndsSo(s, acts, w)
  }

  /** The continuation has somebody else's timer end the wait. */
  predicate EndsSo(s: State, acts: seq<Action>, w: nat) {
    EndedByAnother(Run(s, acts), w)
  }

  /** While the wait is registered only its own timer knows its id, and no other timer ever took it out. */
  ghost predicate Safe(s: State, w: nat) {
    && w in s.race.verdicts
    && (forall k | k in s.race.table && s.race.table[k] == w :: OnlyTimer(s, k, w))
    && (forall i | 0 <= i < |s.race.claims| && s.race.claims[i].node == w && s.race.claims[i].verdict.TimedOut? ::
         s.race.claims[i].verdict.timer == w)
  }

  /** Whatever timer is pending, or still to be set, for the id is the wait's own. */
  ghost predicate OnlyTimer(s: State, id: int, w: nat) {
    && (forall u | u in s.timers && s.timers[u] == id :: u == w)
    && (forall u | u in s.unset && s.unset[u] == id :: u == w)
  }

  lemma ClaimKeepsSafe(s: State, r: State, w: nat, ks: seq<int>, v: Verdict)
    requires Safe(s, w) && r.race == ClaimAll(s.race, ks, v) && r.timers.Keys <= s.timers.Keys && r.unset == s.unset
    requires forall u | u in r.timers :: r.timers[u] == s.timers[u]
    requires v.TimedOut? && TakenFrom(s.race.table, ks, w) ==> v.timer == w
    ensures Safe(r, w)
  {
    ClaimAllEffect(s.race, ks, v);
    forall k | k in r.race.table && r.race.table[k] == w ensures OnlyTimer(r, k, w) {
      assert OnlyTimer(s, k, w);
    }
    forall i | 0 <= i < |r.race.claims| && r.race.claims[i].node == w && r.race.claims[i].verdict.TimedOut?
      ensures r.race.claims[i].verdict.timer == w
    {
      if i < |s.race.claims| {
        assert r.race.claims[i] == s.race.claims[i];
      } else {
        assert r.race.claims[i].verdict == v && TakenFrom(s.race.table, ks, r.race.claims[i].node);
      }
    }
  }

  lemma RegisterKeepsSafe(s: State, w: nat, id: int)
    requires Safe(s, w) && Own(s)
    ensures Safe(Step(s, Register(id)), w)
  {
    var r := Step(s, Register(id));
    assert w <= s.waits;
    forall k | k in r.race.table && r.race.table[k] == w ensures OnlyTimer(r, k, w) {
      assert k in s.race.table && OnlyTimer(s, k, w);
    }
  }

  lemma SetTimerKeepsSafe(s: State, w: nat, u: nat)
    requires Safe(s, w)
    ensures Safe(Step(s, SetTimer(u)), w)
  {
    var r := Step(s, SetTimer(u));
    forall k | k in r.race.table && r.race.table[k] == w ensures OnlyTimer(r, k, w) {
      assert OnlyTimer(s, k, w);
    }
  }

  lemma TimerKeepsSafe(s: State, w: nat, u: nat)
    requires Safe(s, w)
    ensures Safe(Step(s, TimerFires(u)), w)
  {
    if u in s.timers {
      var id := s.timers[u];
      if id in s.race.table && s.race.table[id] == w {
        assert OnlyTimer(s, id, w);
      }
      ClaimKeepsSafe(s, Step(s, TimerFires(u)), w, [id], TimedOut(u));
    }
  }

  lemma SettleKeepsSafe(s: State, w: nat, a: Action)
    requires Safe(s, w) && SettlesOrResumes(a)
    ensures Safe(Step(s, a), w)
  {
    var r := Step(s, a);
    SettleEffect(s, a);
    forall k | k in r.race.table && r.race.table[k] == w ensures OnlyTimer(r, k, w) {
      assert OnlyTimer(s, k, w);
    }
  }

  lemma StepKeepsSafe(s: State, w: nat, a: Action)
    requires Safe(s, w) && Own(s)
    ensures Safe(Step(s, a), w)
  {
    match a {
      case Register(id) => RegisterKeepsSafe(s, w, id);
      case SetTimer(u) => SetTimerKeepsSafe(s, w, u);
      case TimerFires(u) => TimerKeepsSafe(s, w, u);
      case ResolveWith(id, outcome) => ClaimKeepsSafe(s, Step(s, a), w, [id], Resolved(outcome));
      case DrainAll(order) => ClaimKeepsSafe(s, s.(race := ClaimAll(s.race, order, Drained)), w, order, Drained);
      case _ => SettleKeepsSafe(s, w, a);
    }
  }

  lemma {:induction false} RunKeepsSafe(s: State, w: nat, acts: seq<Action>)
    requires Inv(s) && Safe(s, w)
    ensures Inv(Run(s, acts)) && Safe(Run(s, acts), w)
    decreases |acts|
  {
    if acts != [] {
      StepKeepsSafe(s, w, acts[0]);
      StepKeepsInv(s, acts[0]);
      RunKeepsSafe(Step(s, acts[0]), w, acts[1..]);
    }
  }

  lemma SafeIsNotEnded(s: State, w: nat)
    requires Inv(s) && Safe(s, w)
    ensures !EndedByAnother(s, w)
  {
    OnePlaceEach(s.race, w);
    if s.race.verdicts[w].Some? {
      var i: nat :| OnlyClaim(s.race, w, i);
    }
  }

  /** The number is new to the race. */
  ghost predicate NewWait(s: State, w: nat) {
    && w !in s.race.verdicts
    && (forall k | k in s.race.table :: s.race.table[k] != w)
    && (forall i | 0 <= i < |s.race.claims| :: s.race.claims[i].node != w)
  }

  lemma NextWaitIsNew(s: State)
    requires Inv(s)
    ensures NewWait(s, s.waits + 1)
  {
    var w := s.waits + 1;
    forall k | k in s.race.table ensures s.race.table[k] != w {
      assert s.race.table[k] in s.race.verdicts;
    }
    forall i | 0 <= i < |s.race.claims| ensures s.race.claims[i].node != w {
      assert s.race.claims[i].node in s.race.verdicts;
    }
  }

  lemma NewWaitIsSafe(s: State, id: int)
    requires NewWait(s, s.waits + 1) && id !in s.race.table && !TimerComing(s, id)
    ensures Safe(Step(s, Register(id)), s.waits + 1)
  {
    var w := s.waits + 1;
    var r := Step(s, Register(id));
    assert r.race.table == s.race.table[id := w] && r.race.claims == s.race.claims && r.unset == s.unset[w := id];
    forall u | u in s.timers ensures s.timers[u] != id {
      assert s.timers[u] in s.timers.Values;
    }
    forall u | u in s.unset ensures s.unset[u] != id {
      assert s.unset[u] in s.unset.Values;
    }
    assert OnlyTimer(r, id, w);
  }

  /** A wait registered on an id no timer is coming for has only its own to fear. */
  lemma FreshIsSafe(s: State, id: int)
    requires Inv(s) && id !in s.race.table && !TimerComing(s, id)
    ensures Safe(Step(s, Register(id)), s.waits + 1)
  {
    NextWaitIsNew(s);
    NewWaitIsSafe(s, id);
  }

  /** A timer whose id somebody else waits for fires, and its claim settles. */
  lemma ForeignTimerEnds(r: State, id: int, u: nat, w: nat)
    requires id in r.race.table && r.race.table[id] == w && w in r.race.verdicts && r.race.verdicts[w].None?
    requires u in r.timers && r.timers[u] == id && u != w
    ensures EndedByAnother(Step(Step(r, TimerFires(u)), Settle(|r.race.claims|)), w)
  {
    ClaimThenResolve(r.race, id, TimedOut(u));
  }

  /** The steps by which the timer of u ends whoever waits for its id, n claims having been made before. */
  function Ending(u: nat, n: nat, toBeSet: bool): seq<Action> {
    (if toBeSet then [SetTimer(u)] else []) + [TimerFires(u), Settle(n)]
  }

  lemma RunEnding(r: State, u: nat, n: nat, toBeSet: bool)
    ensures Run(r, Ending(u, n, toBeSet))
      == Step(Step(if toBeSet then Step(r, SetTimer(u)) else r, TimerFires(u)), Settle(n))
  {
    if toBeSet {
      assert Ending(u, n, true)[1..] == [TimerFires(u), Settle(n)];
      TwoSteps(Step(r, SetTimer(u)), TimerFires(u), Settle(n));
    } else {
      assert Ending(u, n, false) == [TimerFires(u), Settle(n)];
      TwoSteps(r, TimerFires(u), Settle(n));
    }
  }

  /** The timer of u is coming for the id. */
  predicate ComesFor(s: State, u: nat, id: int, toBeSet: bool) {
    if toBeSet then u in s.unset && s.unset[u] == id else u in s.timers && s.timers[u] == id
  }

  /** A timer that is coming for the id of a new wait can end it. */
  lemma StaleTimerEnds(s: State, id: int, u: nat, toBeSet: bool)
    requires Inv(s) && id !in s.race.table && ComesFor(s, u, id, toBeSet)
    ensures EndedByAnother(Run(Step(s, Register(id)), Ending(u, |s.race.claims|, toBeSet)), s.waits + 1)
  {
    var w := s.waits + 1;
    NextWaitIsNew(s);
    assert u in s.race.verdicts;
    var r := Step(s, Register(id));
    ForeignTimerEnds(if toBeSet then Step(r, SetTimer(u)) else r, id, u, w);
    RunEnding(r, u, |s.race.claims|, toBeSet);
  }

  lemma StaleTimerExposes(s: State, id: int, u: nat, toBeSet: bool)
    requires Inv(s) && id !in s.race.table && ComesFor(s, u, id, toBeSet)
    ensures Exposed(Step(s, Register(id)), s.waits + 1)
  {
    StaleTimerEnds(s, id, u, toBeSet);
    assert EndsSo(Step(s, Register(id)), Ending(u, |s.race.claims|, toBeSet), s.waits + 1);
  }

  lemma TwoSteps(s: State, a: Action, b: Action)
    ensures Run(s, [a, b]) == Step(Step(s, a), b)
  {
    assert [a, b][1..] == [b] && [b][1..] == [];
    assert Run(s, [a, b]) == Run(Step(s, a), [b]) == Run(Step(Step(s, a), b), []);
  }

  /** Nobody else's timer ever ends a safe wait, whatever happens. */
  lemma SafeIsNotExposed(s: State, w: nat)
    requires Inv(s) && Safe(s, w)
    ensures !Exposed(s, w)
  {
    forall acts ensures !EndedByAnother(Run(s, acts), w) {
      RunKeepsSafe(s, w, acts);
      SafeIsNotEnded(Run(s, acts), w);
    }
  }

  /** A wait registered on the id in this state can be ended by somebody else's timer. */
  ghost predicate StartsExposed(s: State, id: int) {
    Exposed(Step(s, Register(id)), s.waits + 1)
  }

  lemma ComingExposes(s: State, id: int)
    requires Inv(s) && id !in s.race.table && TimerComing(s, id)
    ensures StartsExposed(s, id)
  {
    if TimerPending(s, id) {
      var u :| u in s.timers && s.timers[u] == id;
      StaleTimerExposes(s, id, u, false);
    } else {
      var u :| u in s.unset && s.unset[u] == id;
      StaleTimerExposes(s, id, u, true);
    }
  }

  lemma FreshStaysSafe(s: State, id: int)
    requires Inv(s) && id !in s.race.table && !TimerComing(s, id)
    ensures Inv(Step(s, Register(id))) && Safe(Step(s, Register(id)), s.waits + 1)
  {
    FreshIsSafe(s, id);
    StepKeepsInv(s, Register(id));
  }

  lemma NotStartedExposed(s: State, id: int, r: State)
    requires r == Step(s, Register(id)) && !Exposed(r, s.waits + 1)
    ensures !StartsExposed(s, id)
  {
  }

  lemma FreshIsNotExposed(s: State, id: int)
    requires Inv(s) && id !in s.race.table && !TimerComing(s, id)
    ensures !StartsExposed(s, id)
  {
    var r := Step(s, Register(id));
    FreshStaysSafe(s, id);
    SafeIsNotExposed(r, s.waits + 1);
    NotStartedExposed(s, id, r);
  }

  lemma ExposedIfComing(s: State, id: int)
    requires Inv(s) && id !in s.race.table
    ensures StartsExposed(s, id) <==> TimerComing(s, id)
  {
    if TimerComing(s, id) {
      ComingExposes(s, id);
    } else {
      FreshIsNotExposed(s, id);
    }
  }

  /**
   * In every state s a run leads to: a wait that is registered can be ended by another wait's timer in some
   * continuation if and only if a timer for its id is pending, or still to be set, when it is registered.
   */
  lemma ExposedExactly(acts: seq<Action>, s: State, id: int)
    requires s == Run(Start(), acts) && id !in s.race.table
    ensures StartsExposed(s, id) <==> TimerComing(s, id)
  {
    InvInRuns(acts);
    ExposedIfComing(s, id);
  }

  /** The step registers a wait on an id for which an older timer is pending or still to be set. */
  predicate ReusesEarly(s: State, a: Action) {
    a.Register? && a.id !in s.race.table && TimerComing(s, a.id)
  }

  /** The step registers a wait that somebody else's timer can end. */
  ghost predicate LeavesExposed(s: State, a: Action) {
    a.Register? && a.id !in s.race.table && StartsExposed(s, a.id)
  }

  lemma StepExposesExactly(s: State, a: Action)
    requires Inv(s)
    ensures LeavesExposed(s, a) <==> ReusesEarly(s, a)
  {
    if a.Register? && a.id !in s.race.table {
      ExposedIfComing(s, a.id);
    }
  }

  predicate NoEarlyReuse(s: State, acts: seq<Action>)
    decreases |acts|
  {
    acts != [] ==> !ReusesEarly(s, acts[0]) && NoEarlyReuse(Step(s, acts[0]), acts[1..])
  }

  /** No wait that the run registers is exposed to somebody else's timer. */
  ghost predicate NobodyExposed(s: State, acts: seq<Action>)
    decreases |acts|
  {
    acts != [] ==> !LeavesExposed(s, acts[0]) && NobodyExposed(Step(s, acts[0]), acts[1..])
  }

  lemma {:induction false} NobodyExposedFrom(s: State, acts: seq<Action>)
    requires Inv(s)
    ensures NobodyExposed(s, acts) <==> NoEarlyReuse(s, acts)
    decreases |acts|
  {
    if acts != [] {
      StepExposesExactly(s, acts[0]);
      StepKeepsInv(s, acts[0]);
      NobodyExposedFrom(Step(s, acts[0]), acts[1..]);
    }
  }

  /**
   * Over every run: whatever follows, only their own timers can end its waits, if and only if no id was reused
   * early.
   */
  lemma NoEarlyReuseExactly(acts: seq<Action>)
    ensures NobodyExposed(Start(), acts) <==> NoEarlyReuse(Start(), acts)
  {
    InvAtStart();
    NobodyExposedFrom(Start(), acts);
  }

  /** Every wait accepted so far is safe. */
  ghost predicate AllSafe(s: State) {
    forall w | w in s.race.verdicts :: Safe(s, w)
  }

  /** A wait stays safe, and a new one is safe unless it reuses an id early. */
  lemma StepLeavesSafe(s: State, a: Action, w: nat)
    requires Inv(s) && !ReusesEarly(s, a)
    requires w in s.race.verdicts ==> Safe(s, w)
    requires w !in s.race.verdicts ==> a.Register? && a.id !in s.race.table && w == s.waits + 1
    ensures Safe(Step(s, a), w)
  {
    if w in s.race.verdicts {
      StepKeepsSafe(s, w, a);
    } else {
      FreshIsSafe(s, a.id);
    }
  }

  lemma StepKeepsAllSafe(s: State, a: Action)
    requires Inv(s) && AllSafe(s) && !ReusesEarly(s, a)
    ensures AllSafe(Step(s, a))
  {
    NewVerdicts(s, a);
    forall w | w in Step(s, a).race.verdicts ensures Safe(Step(s, a), w) {
      StepLeavesSafe(s, a, w);
    }
  }

  /** Only a registered wait is new to the race. */
  lemma NewVerdicts(s: State, a: Action)
    ensures forall w | w in Step(s, a).race.verdicts && w !in s.race.verdicts ::
      a.Register? && a.id !in s.race.table && w == s.waits + 1
  {
    match a {
      case TimerFires(u) => if u in s.timers { ClaimAllEffect(s.race, [s.timers[u]], TimedOut(u)); }
      case ResolveWith(id, outcome) => ClaimAllEffect(s.race, [id], Resolved(outcome));
      case DrainAll(order) => ClaimAllEffect(s.race, order, Drained);
      case _ =>
    }
  }

  lemma {:induction false} RunKeepsAllSafe(s: State, acts: seq<Action>)
    requires Inv(s) && AllSafe(s) && NoEarlyReuse(s, acts)
    ensures AllSafe(Run(s, acts))
    decreases |acts|
  {
    if acts != [] {
      StepKeepsAllSafe(s, acts[0]);
      StepKeepsInv(s, acts[0]);
      RunKeepsAllSafe(Step(s, acts[0]), acts[1..]);
    }
  }

  /** Without early reuse of ids, a wait that ends in None ended by its own timer or by the drain. */
  lemma NoneMeansOwnTimerOrDrain(acts: seq<Action>, w: nat)
    requires NoEarlyReuse(Start(), acts)
    requires var s := Run(Start(), acts); w in s.race.verdicts && s.race.verdicts[w].Some?
    ensures var v := Run(Start(), acts).race.verdicts[w].value;
      ResultOf(v) == None <==> v == TimedOut(w) || v == Drained
  {
    InvAtStart();
    RunKeepsInv(Start(), acts);
    RunKeepsAllSafe(Start(), acts);
    SafeIsNotEnded(Run(Start(), acts), w);
  }

  /** One wait was registered on the id and resolved, its timer pending or still to be set. */
  predicate OnceResolved(s: State, id: int, toBeSet: bool) {
    && s.race.table == map[] && |s.race.claims| == 1 && s.waits == 1
    && s.timers == (if toBeSet then map[] else map[1 := id]) && s.unset == (if toBeSet then map[1 := id] else map[])
  }

  lemma ResolveOnce(s: State, id: int, outcome: int)
    requires s.race.table == map[id := 1] && s.race.claims == []
    ensures var r := Step(s, ResolveWith(id, outcome));
      r.race.table == map[] && |r.race.claims| == 1 && r == s.(race := r.race)
  {
    ClaimSingle(s.race, id, Resolved(outcome));
  }

  lemma OnceResolvedRuns(id: int, outcome: int)
    ensures OnceResolved(Run(Start(), [Register(id), SetTimer(1), ResolveWith(id, outcome)]), id, false)
    ensures OnceResolved(Run(Start(), [Register(id), ResolveWith(id, outcome)]), id, true)
  {
    var s1 := Step(Start(), Register(id));
    ResolveOnce(s1, id, outcome);
    ResolveOnce(Step(s1, SetTimer(1)), id, outcome);
    TwoSteps(Start(), Register(id), ResolveWith(id, outcome));
    assert [Register(id), SetTimer(1), ResolveWith(id, outcome)][1..] == [SetTimer(1), ResolveWith(id, outcome)];
    TwoSteps(s1, SetTimer(1), ResolveWith(id, outcome));
  }

  /** The timer of the resolved wait ends the next one by these steps. */
  predicate OldTimerMayEnd(s: State, id: int, toBeSet: bool, ending: seq<Action>) {
    && id !in s.race.table && TimerPending(s, id) == !toBeSet && TimerToBeSet(s, id) == toBeSet
    && EndsSo(Step(s, Register(id)), ending, 2)
  }

  lemma OldTimerEnds(s: State, id: int, toBeSet: bool, ending: seq<Action>)
    requires Inv(s) && OnceResolved(s, id, toBeSet) && ending == Ending(1, 1, toBeSet)
    ensures OldTimerMayEnd(s, id, toBeSet, ending)
  {
    StaleTimerEnds(s, id, 1, toBeSet);
    assert map[1 := id][1] in map[1 := id].Values;
  }

  /**
   * Early reuse is reachable: a wait has set its timer and was resolved, and its id is waited for again. The
   * timer ends the later wait, which is left with no result.
   */
  lemma StaleTimerEndsLaterWait(id: int, outcome: int)
    ensures OldTimerMayEnd(Run(Start(), [Register(id), SetTimer(1), ResolveWith(id, outcome)]), id, false,
      [TimerFires(1), Settle(1)])
  {
    var acts := [Register(id), SetTimer(1), ResolveWith(id, outcome)];
    OnceResolvedRuns(id, outcome);
    InvInRuns(acts);
    OldTimerEnds(Run(Start(), acts), id, false, [TimerFires(1), Settle(1)]);
  }

  /**
   * So it is when the first wait is resolved before its own thread comes to set its timer: none is pending
   * for the id when the later wait is registered, and yet the late timer ends it.
   */
  lemma LateTimerEndsLaterWait(id: int, outcome: int)
    ensures OldTimerMayEnd(Run(Start(), [Register(id), ResolveWith(id, outcome)]), id, true,
      [SetTimer(1), TimerFires(1), Settle(1)])
  {
    var acts := [Register(id), ResolveWith(id, outcome)];
    OnceResolvedRuns(id, outcome);
    InvInRuns(acts);
    OldTimerEnds(Run(Start(), acts), id, true, [SetTimer(1), TimerFires(1), Settle(1)]);
  }
}
