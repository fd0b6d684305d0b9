/**
 * The webhook dispatcher's shutdown (src/webhook/webhook_dispatcher.cpp): bridge thread, worker thread,
 * loop thread and the thread in stop(), interleaved in any way. The loop may only be destroyed when no
 * delivery can still touch it.
 */
module Webhooks {
  import opened Options
  import opened BatchWorker

  datatype Payload = Payload(eventId: string, body: string)

  datatype Hook = Hook(id: string, url: string)

  datatype Task = Deliver(payload: Payload, hook: Hook) | Barrier

  datatype Loop = NoLoop | Up | Destroyed | Leaked

  /** Where stop() stands; Reading is between loading the counter and acting on it. */
  datatype Stopper = Idle | Joining | AtBarrier
    | Draining(responsive: bool) | Reading(responsive: bool, remaining: nat) | Over

  datatype Dispatcher = Dispatcher(
    w: Worker<Payload>,
    started: bool,
    versions: seq<seq<Hook>>,  // every state the active hooks were in; the last is the current one
    acceptedAt: seq<nat>,      // the version current when each payload was accepted
    snapshot: Option<nat>,     // the version the worker copied for its batch
    next: nat,                 // the hook of it that batch[0] goes to next
    used: seq<nat>,            // the version each handed payload was expanded with
    tasks: seq<Task>,          // everything ever queued to the loop
    executed: nat,             // how many of them the loop has run, oldest first
    inFlight: set<nat>,        // the requests whose callback is still alive, by task
    loop: Loop,
    stopper: Stopper)

  datatype Action =
    | Dispatch(payload: Payload)
    | HooksChanged(hooks: seq<Hook>)
    | Start
    | WorkerWakes
    | TakeSnapshot
    | PostNext
    | NextPayload
    | BatchDone
    | LoopRuns(sends: bool)
    | CallbackGone(task: nat)
    | StopCalled
    | Joined
    | BarrierPassed
    | BarrierTimedOut
    | DrainEnds
    | Decide

  function Fresh(hooks: seq<Hook>): Dispatcher {
    Dispatcher(New(), false, [hooks], [], None, 0, [], [], 0, {}, NoLoop, Idle)
  }

  /** Whether the loop thread still runs tasks. */
  predicate Alive(d: Dispatcher) {
    d.loop.Up? || d.loop.Leaked?
  }

  predicate BarrierReached(d: Dispatcher) {
    Barrier in d.tasks[..if d.executed <= |d.tasks| then d.executed else |d.tasks|]
  }

  function AcceptPayload(d: Dispatcher, p: Payload, max: nat): Dispatcher
    requires d.versions != []
  {
    var w := Enqueue(d.w, p, max, d.started && !d.w.stop);
    d.(w := w, acceptedAt := if |w.accepted| > |d.w.accepted| then d.acceptedAt + [|d.versions| - 1] else d.acceptedAt)
  }

  function WorkerStep(d: Dispatcher, a: Action): Dispatcher
    requires d.versions != []
  {
    match a
    case WorkerWakes =>
      if d.started && (d.w.stop || d.w.queue != []) then d.(w := Wake(d.w)) else d
    case TakeSnapshot =>
      if d.w.batch != [] && d.snapshot.None? then d.(snapshot := Some(|d.versions| - 1), next := 0) else d
    case PostNext =>
      if d.w.batch != [] && d.snapshot.Some? && d.snapshot.value < |d.versions|
         && d.next < |d.versions[d.snapshot.value]| then
        d.(tasks := d.tasks + [Deliver(d.w.batch[0], d.versions[d.snapshot.value][d.next])], next := d.next + 1)
      else d
    case NextPayload =>
      if d.w.batch != [] && d.snapshot.Some? && d.snapshot.value < |d.versions|
         && d.next == |d.versions[d.snapshot.value]| then
        d.(w := Hand(d.w), used := d.used + [d.snapshot.value], next := 0)
      else d
    case BatchDone =>
      if d.w.awake && d.w.batch == [] then d.(w := Sleep(d.w), snapshot := None, next := 0) else d
    case _ => d
  }

  function LoopStep(d: Dispatcher, a: Action): Dispatcher {
    match a
    case LoopRuns(sends) =>
      if Alive(d) && d.executed < |d.tasks| then
        d.(executed := d.executed + 1,
           inFlight := if d.tasks[d.executed].Deliver? && sends then d.inFlight + {d.executed} else d.inFlight)
      else d
    case CallbackGone(i) => d.(inFlight := d.inFlight - {i})
    case _ => d
  }

  function StopStep(d: Dispatcher, a: Action): Dispatcher {
    match a
    case StopCalled => if d.w.stop || !d.stopper.Idle? then d else d.(w := d.w.(stop := true), stopper := Joining)
    case Joined =>
      if !d.stopper.Joining? then d
      else if !d.started then d.(stopper := Idle)
      else if d.w.exited then d.(tasks := d.tasks + [Barrier], stopper := AtBarrier)
      else d
    case BarrierPassed => if d.stopper.AtBarrier? && BarrierReached(d) then d.(stopper := Draining(true)) else d
    case BarrierTimedOut => if d.stopper.AtBarrier? then d.(stopper := Draining(false)) else d
    case DrainEnds => if d.stopper.Draining? then d.(stopper := Reading(d.stopper.responsive, |d.inFlight|)) else d
    case Decide =>
      if !d.stopper.Reading? then d
      else if d.stopper.responsive && d.stopper.remaining == 0 then d.(loop := Destroyed, stopper := Over)
      else d.(loop := Leaked, stopper := Over)
    case _ => d
  }

  function Step(d: Dispatcher, a: Action, max: nat): Dispatcher
    requires d.versions != []
  {
    match a
    case Dispatch(p) => AcceptPayload(d, p, max)
    case HooksChanged(hooks) => d.(versions := d.versions + [hooks])
    case Start =>
      // start() and stop() are not called at the same time
      if d.started || !d.stopper.Idle? then d else d.(started := true, w := d.w.(stop := false), loop := Up)
    case LoopRuns(_) => LoopStep(d, a)
    case CallbackGone(_) => LoopStep(d, a)
    case StopCalled => StopStep(d, a)
    case Joined => StopStep(d, a)
    case BarrierPassed => StopStep(d, a)
    case BarrierTimedOut => StopStep(d, a)
    case DrainEnds => StopStep(d, a)
    case Decide => StopStep(d, a)
    case _ => WorkerStep(d, a)
  }

  // ------------------------------------------------------------------ the expansion

  function ForHooks(p: Payload, hooks: seq<Hook>): seq<Task> {
    seq(|hooks|, i requires 0 <= i < |hooks| => Deliver(p, hooks[i]))
  }

  /** One delivery per payload and active hook of the payload's version, in the order of acceptance. */
  function Expansion(ps: seq<Payload>, used: seq<nat>, versions: seq<seq<Hook>>): seq<Task>
    requires |used| == |ps| && (forall i | 0 <= i < |used| :: used[i] < |versions|)
    decreases |ps|
  {
    if ps == [] then []
    else
      var n := |ps| - 1;
      Expansion(ps[..n], used[..n], versions) + ForHooks(ps[n], versions[used[n]])
  }

  lemma {:induction false} ExpansionKeepsVersions(ps: seq<Payload>, used: seq<nat>, versions: seq<seq<Hook>>,
      hooks: seq<Hook>)
    requires |used| == |ps| && (forall i | 0 <= i < |used| :: used[i] < |versions|)
    ensures Expansion(ps, used, versions + [hooks]) == Expansion(ps, used, versions)
    decreases |ps|
  {
    if ps != [] {
      ExpansionKeepsVersions(ps[..|ps| - 1], used[..|ps| - 1], versions, hooks);
    }
  }

  // ------------------------------------------------------------------ the invariant

  /** A payload is expanded with the hooks active at some time after it was accepted. */
  predicate VersionsOk(d: Dispatcher) {
    && d.versions != []
    && |d.acceptedAt| == |d.w.accepted| && |d.used| == |d.w.handed| && |d.w.handed| + |d.w.batch| <= |d.acceptedAt|
    && (forall i | 0 <= i < |d.used| :: d.acceptedAt[i] <= d.used[i] < |d.versions|)
    && (forall i | 0 <= i < |d.acceptedAt| :: d.acceptedAt[i] < |d.versions|)
    && (d.snapshot.Some? ==>
         && d.snapshot.value < |d.versions| && d.next <= |d.versions[d.snapshot.value]|
         && (forall i | 0 <= i < |d.w.handed| + |d.w.batch| :: d.acceptedAt[i] <= d.snapshot.value))
  }

  /** The deliveries of the payload under way that are already queued. */
  function Partial(d: Dispatcher): seq<Task> {
    if d.snapshot.Some? && d.snapshot.value < |d.versions| && d.w.batch != []
       && d.next <= |d.versions[d.snapshot.value]| then
      ForHooks(d.w.batch[0], d.versions[d.snapshot.value][..d.next])
    else []
  }

  predicate BarrierQueued(d: Dispatcher) {
    d.stopper.AtBarrier? || d.stopper.Draining? || d.stopper.Reading? || d.stopper.Over?
  }

  predicate TasksOk(d: Dispatcher)
    requires VersionsOk(d)
  {
    d.tasks == Expansion(d.w.handed, d.used, d.versions) + Partial(d) + if BarrierQueued(d) then [Barrier] else []
  }

  predicate LoopOk(d: Dispatcher) {
    && d.executed <= |d.tasks|
    && (forall i | i in d.inFlight :: i < d.executed)
  }

  predicate WorkerOk(d: Dispatcher) {
    && (!d.started ==> d.w.queue == [] && !d.w.awake && !d.w.exited && d.loop.NoLoop?)
    && (d.started ==> !d.loop.NoLoop?)
    && (d.snapshot.Some? ==> d.w.awake)
    && (d.w.exited ==> d.w.queue == [])
  }

  predicate StopOk(d: Dispatcher) {
    && (BarrierQueued(d) ==> d.started && d.w.exited)
    && (d.stopper.Joining? ==> d.w.stop)
    && ((d.stopper.Draining? || d.stopper.Reading?) && d.stopper.responsive ==> d.executed == |d.tasks|)
    && (d.stopper.Reading? && d.stopper.responsive && d.stopper.remaining == 0 ==> d.inFlight == {})
    && (d.stopper.Over? <==> d.loop.Destroyed? || d.loop.Leaked?)
    && (d.loop.Destroyed? ==> d.executed == |d.tasks| && d.inFlight == {})
  }

  predicate Sound(d: Dispatcher, max: nat) {
    Inv(d.w, max) && VersionsOk(d) && TasksOk(d) && LoopOk(d) && WorkerOk(d) && StopOk(d)
  }

  lemma DispatchKeeps(d: Dispatcher, p: Payload, max: nat)
    requires Sound(d, max)
    ensures Sound(Step(d, Dispatch(p), max), max)
  {
    EnqueueKeeps(d.w, p, max, d.started && !d.w.stop);
  }

  lemma HooksChangedKeeps(d: Dispatcher, hooks: seq<Hook>, max: nat)
    requires Sound(d, max)
    ensures Sound(Step(d, HooksChanged(hooks), max), max)
  {
    var r := Step(d, HooksChanged(hooks), max);
    ExpansionKeepsVersions(d.w.handed, d.used, d.versions, hooks);
    assert VersionsOk(r);
    assert Partial(r) == Partial(d);
  }

  lemma WakesKeeps(d: Dispatcher, max: nat)
    requires Sound(d, max)
    ensures Sound(Step(d, WorkerWakes, max), max)
  {
    WakeKeeps(d.w, max);
  }

  lemma SnapshotKeeps(d: Dispatcher, max: nat)
    requires Sound(d, max)
    ensures Sound(Step(d, TakeSnapshot, max), max)
  {
    var r := Step(d, TakeSnapshot, max);
    assert VersionsOk(r);
    assert Partial(r) == Partial(d);
  }

  lemma PostKeeps(d: Dispatcher, max: nat)
    requires Sound(d, max)
    ensures Sound(Step(d, PostNext, max), max)
  {
    var r := Step(d, PostNext, max);
    if r != d {
      var hooks := d.versions[d.snapshot.value];
      assert hooks[..d.next + 1] == hooks[..d.next] + [hooks[d.next]];
      assert Partial(r) == Partial(d) + [Deliver(d.w.batch[0], hooks[d.next])];
      assert !BarrierQueued(d);
    }
  }

  lemma NextPayloadKeeps(d: Dispatcher, max: nat)
    requires Sound(d, max)
    ensures Sound(Step(d, NextPayload, max), max)
  {
    var r := Step(d, NextPayload, max);
    if r != d {
      HandKeeps(d.w, max);
      var hooks := d.versions[d.snapshot.value];
      assert hooks[..d.next] == hooks;
      assert Partial(d) == ForHooks(d.w.batch[0], hooks);
      assert r.w.handed[..|d.w.handed|] == d.w.handed && r.used[..|d.used|] == d.used;
      assert Partial(r) == [];
    }
  }

  lemma BatchDoneKeeps(d: Dispatcher, max: nat)
    requires Sound(d, max)
    ensures Sound(Step(d, BatchDone, max), max)
  {
  }

  lemma LoopKeeps(d: Dispatcher, a: Action, max: nat)
    requires Sound(d, max) && (a.LoopRuns? || a.CallbackGone?)
    ensures Sound(Step(d, a, max), max)
  {
    var r := LoopStep(d, a);
    assert VersionsOk(r) && Partial(r) == Partial(d);
  }

  lemma StartKeeps(d: Dispatcher, max: nat)
    requires Sound(d, max)
    ensures Sound(Step(d, Start, max), max)
  {
    var r := Step(d, Start, max);
    assert VersionsOk(r) && Partial(r) == Partial(d);
  }

  /** The barrier is the last task: once it has run, so has every delivery. */
  lemma BarrierIsLast(d: Dispatcher)
    requires VersionsOk(d) && TasksOk(d) && LoopOk(d) && BarrierReached(d)
    ensures d.executed == |d.tasks|
  {
    var e := Expansion(d.w.handed, d.used, d.versions) + Partial(d);
    OnlyDeliveries(d.w.handed, d.used, d.versions);
    assert forall i | 0 <= i < |e| :: e[i].Deliver?;
    var i :| 0 <= i < d.executed && d.tasks[i] == Barrier;
    assert i >= |e|;
  }

  lemma {:induction false} OnlyDeliveries(ps: seq<Payload>, used: seq<nat>, versions: seq<seq<Hook>>)
    requires |used| == |ps| && (forall i | 0 <= i < |used| :: used[i] < |versions|)
    ensures forall i | 0 <= i < |Expansion(ps, used, versions)| :: Expansion(ps, used, versions)[i].Deliver?
    decreases |ps|
  {
    if ps != [] {
      OnlyDeliveries(ps[..|ps| - 1], used[..|ps| - 1], versions);
    }
  }

  lemma BarrierPassedKeeps(d: Dispatcher, max: nat)
    requires Sound(d, max)
    ensures Sound(Step(d, BarrierPassed, max), max)
  {
    if d.stopper.AtBarrier? && BarrierReached(d) {
      BarrierIsLast(d);
    }
    assert Partial(StopStep(d, BarrierPassed)) == Partial(d);
  }

  lemma JoinedKeeps(d: Dispatcher, max: nat)
    requires Sound(d, max)
    ensures Sound(Step(d, Joined, max), max)
  {
    assert Partial(StopStep(d, Joined)) == Partial(d);
  }

  lemma DecideKeeps(d: Dispatcher, max: nat)
    requires Sound(d, max)
    ensures Sound(Step(d, Decide, max), max)
  {
    assert Partial(StopStep(d, Decide)) == Partial(d);
  }

  lemma StopCalledKeeps(d: Dispatcher, max: nat)
    requires Sound(d, max)
    ensures Sound(Step(d, StopCalled, max), max)
  {
    assert Partial(StopStep(d, StopCalled)) == Partial(d);
  }

  lemma WaitKeeps(d: Dispatcher, a: Action, max: nat)
    requires Sound(d, max) && (a.BarrierTimedOut? || a.DrainEnds?)
    ensures Sound(Step(d, a, max), max)
  {
    assert Partial(StopStep(d, a)) == Partial(d);
  }

  lemma StepKeepsSound(d: Dispatcher, a: Action, max: nat)
    requires Sound(d, max)
    ensures Sound(Step(d, a, max), max)
  {
    match a {
      case Dispatch(p) => DispatchKeeps(d, p, max);
      case HooksChanged(hooks) => HooksChangedKeeps(d, hooks, max);
      case Start => StartKeeps(d, max);
      case WorkerWakes => WakesKeeps(d, max);
      case TakeSnapshot => SnapshotKeeps(d, max);
      case PostNext => PostKeeps(d, max);
      case NextPayload => NextPayloadKeeps(d, max);
      case BatchDone => BatchDoneKeeps(d, max);
      case LoopRuns(_) => LoopKeeps(d, a, max);
      case CallbackGone(_) => LoopKeeps(d, a, max);
      case BarrierPassed => BarrierPassedKeeps(d, max);
      case Joined => JoinedKeeps(d, max);
      case Decide => DecideKeeps(d, max);
      case StopCalled => StopCalledKeeps(d, max);
      case _ => WaitKeeps(d, a, max);
    }
  }

  function Run(d: Dispatcher, acts: seq<Action>, max: nat): Dispatcher
    requires d.versions != []
    decreases |acts|
  {
    if acts == [] then d else Run(Step(d, acts[0], max), acts[1..], max)
  }

  lemma {:induction false} RunKeepsSound(d: Dispatcher, acts: seq<Action>, max: nat)
    requires Sound(d, max)
    ensures Sound(Run(d, acts, max), max)
    decreases |acts|
  {
    if acts != [] {
      StepKeepsSound(d, acts[0], max);
      RunKeepsSound(Step(d, acts[0], max), acts[1..], max);
    }
  }

  // ------------------------------------------------------------------ the theorems

  /** Every accepted payload was expanded, in order and once, and nothing else was queued but the barrier. */
  predicate FullyExpanded(d: Dispatcher) {
    && VersionsOk(d) && d.w.handed == d.w.accepted
    && d.tasks == Expansion(d.w.handed, d.used, d.versions) + if BarrierQueued(d) then [Barrier] else []
  }

  /**
   * In every interleaving from construction on: the deliveries queued to the loop are exactly the
   * expansion of the handed payloads, and of a prefix of the hooks for the payload under way; handed
   * payloads are the accepted ones in order and once each; and each is expanded with the hooks active at
   * some time after it was accepted. When the worker has left, every accepted payload was expanded.
   */
  lemma EveryAcceptedIsExpanded(hooks: seq<Hook>, acts: seq<Action>, max: nat)
    ensures var d := Run(Fresh(hooks), acts, max);
      && VersionsOk(d) && TasksOk(d)
      && |d.w.queue| <= max
      && d.w.accepted == d.w.handed + d.w.batch + d.w.queue
      && (d.w.exited ==> FullyExpanded(d))
  {
    RunKeepsSound(Fresh(hooks), acts, max);
  }

  /** A request is in flight exactly from the functor that sent it until its callback is gone. */
  lemma InFlightExactly(d: Dispatcher, a: Action, max: nat, i: nat)
    requires d.versions != []
    ensures var r := Step(d, a, max);
      i in r.inFlight <==>
        || (i in d.inFlight && a != CallbackGone(i))
        || (a == LoopRuns(true) && Alive(d) && i == d.executed < |d.tasks| && d.tasks[i].Deliver?)
  {
  }

  /** The loop thread runs the functors one by one in the order they were queued, as long as it lives. */
  lemma LoopRunsNext(d: Dispatcher, a: Action, max: nat)
    requires d.versions != []
    ensures Step(d, a, max).executed ==
      if a.LoopRuns? && Alive(d) && d.executed < |d.tasks| then d.executed + 1 else d.executed
  {
  }

  /**
   * The loop is destroyed only when it has run every delivery there will ever be and no callback is alive;
   * in every other case it is leaked. Nothing is queued or sent afterwards.
   */
  lemma DestroyedOnlyWhenDrained(hooks: seq<Hook>, acts: seq<Action>, more: seq<Action>, max: nat)
    requires Run(Fresh(hooks), acts, max).loop.Destroyed?
    ensures var d := Run(Fresh(hooks), acts, max);
      && d.versions != []
      && d.inFlight == {} && d.executed == |d.tasks| && FullyExpanded(d)
      && Run(d, more, max).tasks == d.tasks && Run(d, more, max).inFlight == {}
  {
    var d := Run(Fresh(hooks), acts, max);
    RunKeepsSound(Fresh(hooks), acts, max);
    DestroyedIsDrained(d, max);
    QuietAfter(d, more, max);
  }

  lemma DestroyedIsDrained(d: Dispatcher, max: nat)
    requires Sound(d, max) && d.loop.Destroyed?
    ensures d.inFlight == {} && d.executed == |d.tasks| && FullyExpanded(d)
  {
  }

  lemma {:induction false} QuietAfter(d: Dispatcher, acts: seq<Action>, max: nat)
    requires Sound(d, max) && d.loop.Destroyed?
    ensures var r := Run(d, acts, max); r.loop.Destroyed? && r.tasks == d.tasks && r.inFlight == {}
    decreases |acts|
  {
    if acts != [] {
      StepKeepsSound(d, acts[0], max);
      QuietAfter(Step(d, acts[0], max), acts[1..], max);
    }
  }

  /** A shutdown nothing delays ends with the loop destroyed: the loop has run dry and the callbacks are gone. */
  lemma PromptStopDestroys(d: Dispatcher, max: nat)
    requires Sound(d, max) && d.stopper.AtBarrier? && d.executed == |d.tasks| && d.inFlight == {}
    ensures Step(Step(Step(d, BarrierPassed, max), DrainEnds, max), Decide, max).loop.Destroyed?
  {
    var i := |d.tasks| - 1;
    assert d.tasks[i] == Barrier && d.tasks[..d.executed] == d.tasks;
  }

  // ------------------------------------------------------------------ the methods, in place

  lemma RunSplits(d: Dispatcher, acts: seq<Action>, max: nat)
    requires d.versions != [] && acts != []
    ensures Step(d, acts[0], max).versions != []
    ensures Run(d, acts, max) == Run(Step(d, acts[0], max), acts[1..], max)
  {
  }

  lemma {:induction false} RunAppend(d: Dispatcher, acts: seq<Action>, more: seq<Action>, max: nat)
    requires d.versions != []
    ensures Run(d, acts, max).versions != []
    ensures Run(d, acts + more, max) == Run(Run(d, acts, max), more, max)
    decreases |acts|
  {
    if acts == [] {
      assert acts + more == more;
    } else {
      RunSplits(d, acts, max);
      RunSplits(d, acts + more, max);
      RunAppend(Step(d, acts[0], max), acts[1..], more, max);
      assert (acts + more)[1..] == acts[1..] + more;
    }
  }

  /** The worker amid its batch: hook j of payload i is next. */
  predicate Posting(d: Dispatcher, batch: seq<Payload>, hooks: seq<Hook>, i: nat, j: nat) {
    && i <= |batch| && d.w.awake && d.w.batch == batch[i..] && d.next == j <= |hooks|
    && d.snapshot.Some? && d.snapshot.value < |d.versions| && d.versions[d.snapshot.value] == hooks
  }

  lemma PostEffect(d: Dispatcher, batch: seq<Payload>, hooks: seq<Hook>, i: nat, j: nat, max: nat)
    requires Posting(d, batch, hooks, i, j) && i < |batch| && j < |hooks|
    ensures var r := Run(d, [PostNext], max);
      && r == d.(tasks := d.tasks + [Deliver(batch[i], hooks[j])], next := j + 1)
      && Posting(r, batch, hooks, i, j + 1)
  {
    assert Run(d, [PostNext], max) == Run(Step(d, PostNext, max), [], max);
  }

  lemma NextEffect(d: Dispatcher, batch: seq<Payload>, hooks: seq<Hook>, i: nat, max: nat)
    requires Posting(d, batch, hooks, i, |hooks|) && i < |batch|
    ensures var r := Run(d, [NextPayload], max);
      && r.w.queue == d.w.queue && r.w.stop == d.w.stop && r.started == d.started && r.tasks == d.tasks
      && r.w.handed == d.w.handed + [batch[i]]
      && Posting(r, batch, hooks, i + 1, 0)
  {
    assert Run(d, [NextPayload], max) == Run(Step(d, NextPayload, max), [], max);
    assert batch[i..][1..] == batch[i + 1..];
  }

  /** The functors of a batch expanded against one snapshot. */
  function ForBatch(batch: seq<Payload>, hooks: seq<Hook>): seq<Task> {
    Expansion(batch, seq(|batch|, _ => 0), [hooks])
  }

  lemma ForBatchSnoc(before: seq<Task>, batch: seq<Payload>, hooks: seq<Hook>, i: nat)
    requires i < |batch|
    ensures before + ForBatch(batch[..i + 1], hooks)
      == before + ForBatch(batch[..i], hooks) + ForHooks(batch[i], hooks)
  {
    assert batch[..i + 1][..i] == batch[..i];
    assert seq(i + 1, _ => 0)[..i] == seq(i, _ => 0);
  }

  predicate OnlyPosts(acts: seq<Action>) {
    forall a | a in acts :: a.PostNext? || a.NextPayload?
  }

  /** A run of the worker's steps has brought it to payload i of its batch. */
  ghost predicate Posted(d: Dispatcher, r: Dispatcher, acts: seq<Action>, batch: seq<Payload>, hooks: seq<Hook>,
      i: nat, max: nat)
    requires d.versions != []
  {
    && OnlyPosts(acts) && r == Run(d, acts, max) && Posting(r, batch, hooks, i, 0)
    && r.w.handed == d.w.handed + batch[..i]
  }

  lemma PostedMore(d: Dispatcher, r: Dispatcher, n: Dispatcher, acts: seq<Action>, more: seq<Action>,
      batch: seq<Payload>, hooks: seq<Hook>, i: nat, max: nat)
    requires d.versions != [] && r.versions != [] && Posted(d, r, acts, batch, hooks, i, max)
    requires i < |batch| && OnlyPosts(more) && n == Run(r, more, max)
    requires Posting(n, batch, hooks, i + 1, 0) && n.w.handed == r.w.handed + [batch[i]]
    ensures Posted(d, n, acts + more, batch, hooks, i + 1, max)
  {
    RunAppend(d, acts, more, max);
    assert batch[..i + 1] == batch[..i] + [batch[i]];
  }

  class Service {
    const queueMax: nat
    var queue: seq<Payload>
    var started: bool
    var stop: bool
    var tasks: seq<Task>  // what was queued to the loop thread

    predicate Shows(d: Dispatcher)
      reads this
    {
      queue == d.w.queue && started == d.started && stop == d.w.stop && tasks == d.tasks
    }

    constructor (max: nat, ghost hooks: seq<Hook>)
      ensures queueMax == max && Shows(Fresh(hooks))
    {
      queueMax := max;
      queue, tasks, started, stop := [], [], false, false;
    }

    /** start() up to the creation of its threads. */
    method StartUp(ghost d: Dispatcher)
      requires Shows(d) && d.versions != [] && d.stopper.Idle?
      modifies this
      ensures Shows(Step(d, Start, queueMax))
      ensures started && queue == old(queue) && tasks == old(tasks) && stop == (old(started) && old(stop))
    {
      if started { return; }
      started, stop := true, false;
    }

    /** dispatch() after the event is serialised: refused before start, after stop, and when full. */
    method Dispatch(ghost d: Dispatcher, p: Payload)
      requires Shows(d) && d.versions != []
      modifies this`queue
      ensures Shows(Step(d, Action.Dispatch(p), queueMax))
      ensures queue == old(queue) + if started && !stop && |old(queue)| < queueMax then [p] else []
    {
      if !started || stop { return; }
      if |queue| >= queueMax { return; }
      queue := queue + [p];
    }

    /** The worker's section under the mutex once its wait is over: the whole queue is swapped out. */
    method TakeBatch(ghost d: Dispatcher) returns (batch: seq<Payload>, leave: bool)
      requires Shows(d) && d.versions != [] && d.started && !d.w.awake && !d.w.exited && (stop || queue != [])
      modifies this`queue
      ensures var r := Step(d, WorkerWakes, queueMax);
        Shows(r) && r.w.batch == (if leave then d.w.batch else batch) && r.w.exited == leave
      ensures batch == old(queue) && queue == [] && (leave <==> batch == [] && stop)
    {
      batch, queue := queue, [];
      leave := batch == [] && stop;
    }

    /** One payload of the worker's batch: one functor per hook of the snapshot, in order. */
    method PostPayload(ghost d: Dispatcher, ghost batch: seq<Payload>, i: nat, p: Payload, hooks: seq<Hook>)
      returns (ghost acts: seq<Action>)
      requires Shows(d) && Posting(d, batch, hooks, i, 0) && i < |batch| && batch[i] == p
      modifies this`tasks
      ensures OnlyPosts(acts) && tasks == old(tasks) + ForHooks(p, hooks)
      ensures var r := Run(d, acts, queueMax);
        Shows(r) && Posting(r, batch, hooks, i + 1, 0) && r.w.handed == d.w.handed + [p]
    {
      acts := [];
      var j := 0;
      while j < |hooks|
        invariant j <= |hooks| && OnlyPosts(acts)
        invariant var r := Run(d, acts, queueMax);
          Shows(r) && Posting(r, batch, hooks, i, j) && r.w.handed == d.w.handed
        invariant tasks == old(tasks) + ForHooks(p, hooks[..j])
      {
        assert hooks[..j + 1] == hooks[..j] + [hooks[j]];
        RunAppend(d, acts, [PostNext], queueMax);
        PostEffect(Run(d, acts, queueMax), batch, hooks, i, j, queueMax);
        acts := acts + [PostNext];
        tasks := tasks + [Deliver(p, hooks[j])];
        j := j + 1;
      }
      assert hooks[..j] == hooks;
      RunAppend(d, acts, [NextPayload], queueMax);
      NextEffect(Run(d, acts, queueMax), batch, hooks, i, queueMax);
      acts := acts + [NextPayload];
    }

    /** One batch of the worker: for each payload, one functor per hook of the snapshot, in order. */
    method PostBatch(ghost d: Dispatcher, batch: seq<Payload>, hooks: seq<Hook>) returns (ghost acts: seq<Action>)
      requires Shows(d) && Posting(d, batch, hooks, 0, 0)
      modifies this`tasks
      ensures OnlyPosts(acts) && tasks == old(tasks) + ForBatch(batch, hooks)
      ensures var r := Run(d, acts, queueMax); Shows(r) && r.w.batch == [] && r.w.handed == d.w.handed + batch
    {
      acts := [];
      ghost var r := d;
      var i := 0;
      while i < |batch|
        invariant i <= |batch| && Shows(r) && Posted(d, r, acts, batch, hooks, i, queueMax)
        invariant tasks == old(tasks) + ForBatch(batch[..i], hooks)
      {
        ForBatchSnoc(old(tasks), batch, hooks, i);
        ghost var more := PostPayload(r, batch, i, batch[i], hooks);
        ghost var n := Run(r, more, queueMax);
        PostedMore(d, r, n, acts, more, batch, hooks, i, queueMax);
        acts, r, i := acts + more, n, i + 1;
      }
      assert batch[..i] == batch;
    }

    /** stop() up to its join: the flag goes up once. */
    method RaiseStop(ghost d: Dispatcher) returns (first: bool)
      requires Shows(d) && d.versions != [] && d.stopper.Idle?
      modifies this`stop
      ensures Shows(Step(d, StopCalled, queueMax)) && first == !old(stop) && stop
    {
      first := !stop;
      stop := true;
    }
  }
}
