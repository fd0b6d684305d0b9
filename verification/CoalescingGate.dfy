/**
 * The coalescing gate two background jobs share: SyncGate (src/auth/s3_session.cpp) and the kick of the
 * reconciler (control-plane/src/reconcile.ts). A request while a worker runs is put off, several become
 * one, and none is lost.
 */
module CoalescingGate {
  datatype Phase = Due | InStep

  datatype Gate = Gate(
    running: bool,
    pending: bool,
    inFlight: bool,
    stopped: bool,
    workers: map<nat, Phase>,  // the live worker threads
    spawned: nat,              // how many workers there ever were
    asked: nat,                // how many requests got through
    steps: nat,                // how many steps ever began
    covered: nat)              // how many requests had got through when the latest step began

  datatype Action = Ask | Begin(worker: nat) | End(worker: nat) | Stop

  function Idle(): Gate {
    Gate(false, false, false, false, map[], 0, 0, 0, 0)
  }

  /** tryStart(), and kick(): a stopped gate takes no more requests. */
  function Request(g: Gate): Gate {
    if g.stopped then g
    else if g.running then g.(pending := true, asked := g.asked + 1)
    else
      g.(running := true, inFlight := true, asked := g.asked + 1,
         workers := g.workers[g.spawned := Due], spawned := g.spawned + 1)
  }

  function BeginStep(g: Gate, w: nat): Gate {
    if w in g.workers && g.workers[w].Due? then
      g.(workers := g.workers[w := InStep], steps := g.steps + 1, covered := g.asked)
    else g
  }

  /** finishStep(): go on for a request put off meanwhile, or leave. */
  function EndStep(g: Gate, w: nat): Gate {
    if !(w in g.workers && g.workers[w].InStep?) then g
    else if g.pending && !g.stopped then g.(pending := false, workers := g.workers[w := Due])
    else g.(running := false, inFlight := false, workers := g.workers - {w})
  }

  function Step(g: Gate, a: Action): Gate {
    match a
    case Ask => Request(g)
    case Begin(w) => BeginStep(g, w)
    case End(w) => EndStep(g, w)
    case Stop => g.(stopped := true)
  }

  function Run(g: Gate, acts: seq<Action>): Gate
    decreases |acts|
  {
    if acts == [] then g else Run(Step(g, acts[0]), acts[1..])
  }

  predicate StepDue(g: Gate) {
    g.running && g.spawned > 0 && g.spawned - 1 in g.workers && g.workers[g.spawned - 1].Due?
  }

  /** One worker at most, the latest one; and a request not yet covered still has its step coming. */
  predicate Sound(g: Gate) {
    && g.inFlight == g.running
    && (g.running ==> g.spawned > 0 && g.workers.Keys == {g.spawned - 1})
    && (!g.running ==> g.workers == map[])
    && (g.pending ==> g.running || g.stopped)
    && g.covered <= g.asked
    && (g.covered < g.asked ==> StepDue(g) || g.pending)
    && g.steps + (if StepDue(g) then 1 else 0) + (if g.pending then 1 else 0) <= g.asked
  }

  lemma RequestKeeps(g: Gate)
    requires Sound(g)
    ensures Sound(Request(g))
  {
  }

  lemma BeginKeeps(g: Gate, w: nat)
    requires Sound(g)
    ensures Sound(BeginStep(g, w))
  {
    if w in g.workers {
      assert w == g.spawned - 1;
      assert BeginStep(g, w).workers.Keys == g.workers.Keys;
    }
  }

  lemma EndKeeps(g: Gate, w: nat)
    requires Sound(g)
    ensures Sound(EndStep(g, w))
  {
    if w in g.workers {
      assert w == g.spawned - 1;
      var r := EndStep(g, w);
      if r.running {
        assert r.workers.Keys == g.workers.Keys;
      } else {
        assert g.workers.Keys - {w} == {};
      }
    }
  }

  lemma StepKeeps(g: Gate, a: Action)
    requires Sound(g)
    ensures Sound(Step(g, a))
  {
    match a {
      case Ask => RequestKeeps(g);
      case Begin(w) => BeginKeeps(g, w);
      case End(w) => EndKeeps(g, w);
      case Stop =>
    }
  }

  /** Over every run; and the three counts never go back. */
  lemma {:induction false} RunKeepsSound(g: Gate, acts: seq<Action>)
    requires Sound(g)
    ensures var r := Run(g, acts); Sound(r) && g.asked <= r.asked && g.covered <= r.covered && g.steps <= r.steps
    decreases |acts|
  {
    if acts != [] {
      StepKeeps(g, acts[0]);
      RunKeepsSound(Step(g, acts[0]), acts[1..]);
    }
  }

  /**
   * Over every interleaving: one worker at most, in_flight says whether there is one, no more steps than
   * requests; and once the worker has left with the gate not stopped, a step has begun after every request.
   */
  lemma NoLostRequest(acts: seq<Action>)
    ensures var g := Run(Idle(), acts);
      && |g.workers| <= 1 && (g.inFlight <==> |g.workers| == 1)
      && g.steps <= g.asked
      && (g.workers == map[] && !g.stopped ==> g.covered == g.asked)
  {
    RunKeepsSound(Idle(), acts);
  }

  /** A request that gets through at g: by the time the gate is idle again, a step has begun after it. */
  lemma RequestIsFollowedByStep(before: seq<Action>, after: seq<Action>)
    ensures var g := Run(Idle(), before);
      var r := Run(Request(g), after);
      && (!g.stopped && !r.stopped && !r.running ==> r.steps > g.steps && r.covered > g.asked)
      && (!g.stopped && r.covered > g.asked ==> r.steps > g.steps)
  {
    var g := Run(Idle(), before);
    RunKeepsSound(Idle(), before);
    RequestKeeps(g);
    RunKeepsSound(Request(g), after);
    CoveringTakesAStep(Request(g), after);
  }

  /** The covered count moves only when a step begins. */
  lemma {:induction false} CoveringTakesAStep(g: Gate, acts: seq<Action>)
    ensures var r := Run(g, acts); r.steps >= g.steps && (r.steps == g.steps ==> r.covered == g.covered)
    decreases |acts|
  {
    if acts != [] {
      CoveringTakesAStep(Step(g, acts[0]), acts[1..]);
    }
  }

  /** In every run: left to itself a worker makes at most two more steps, the last of them after every request. */
  lemma UndisturbedWorkerDrains(acts: seq<Action>, g: Gate, w: nat)
    requires g == Run(Idle(), acts) && w in g.workers && !g.stopped
    ensures var b := Step(g, Begin(w)); var e := Step(b, End(w)); var r := Step(Step(e, Begin(w)), End(w));
      && r.workers == map[] && !r.running && !r.pending && r.asked == g.asked && r.covered == g.asked
      && r.steps <= g.steps + 2
      && (g.workers[w].Due? ==> r.steps > g.steps && b.covered == g.asked)
  {
    RunKeepsSound(Idle(), acts);
    assert w == g.spawned - 1;
    var b := Step(g, Begin(w));
    BeginKeeps(g, w);
    var e := Step(b, End(w));
    EndKeeps(b, w);
    BeginKeeps(e, w);
    EndKeeps(Step(e, Begin(w)), w);
  }

  // ------------------------------------------------------------------ the two gates, in place

  class SyncGate {
    var running: bool
    var pending: bool
    var inFlight: bool

    predicate Shows(g: Gate)
      reads this
    {
      running == g.running && pending == g.pending && inFlight == g.inFlight && !g.stopped
    }

    constructor ()
      ensures Shows(Idle())
    {
      running, pending, inFlight := false, false, false;
    }

    /** True when the caller has to start the worker. */
    method TryStart(ghost g: Gate) returns (start: bool)
      requires Shows(g)
      modifies this
      ensures Shows(Request(g)) && (start <==> Request(g).spawned == g.spawned + 1)
      ensures start <==> !old(running)
      ensures running && pending == (old(pending) || old(running)) && inFlight == (old(inFlight) || start)
    {
      if running {
        pending := true;
        return false;
      }
      running := true;
      inFlight := true;
      start := true;
    }

    /** True when the worker has to make another step. */
    method FinishStep(ghost g: Gate, ghost w: nat) returns (again: bool)
      requires Shows(g) && w in g.workers && g.workers[w].InStep?
      modifies this
      ensures Shows(EndStep(g, w)) && (again <==> w in EndStep(g, w).workers)
      ensures (again <==> old(pending)) && !pending
      ensures running == (old(running) && again) && inFlight == (old(inFlight) && again)
    {
      if pending {
        pending := false;
        return true;
      }
      running := false;
      inFlight := false;
      again := false;
    }
  }

  /** startReconciler's closure variables; running is the loop of pass() between two awaits. */
  class Reconciler {
    var running: bool
    var pending: bool
    var stopped: bool
    var passes: nat

    predicate Shows(g: Gate)
      reads this
    {
      running == g.running && pending == g.pending && stopped == g.stopped && passes == g.steps
    }

    constructor ()
      ensures Shows(Idle())
    {
      running, pending, stopped, passes := false, false, false, 0;
    }

    /** A kick that finds nothing running enters the loop at once, so its pass has begun when kick returns. */
    method Kick(ghost g: Gate)
      requires Shows(g) && Sound(g)
      modifies this
      ensures Shows(if g.stopped || g.running then Request(g) else BeginStep(Request(g), g.spawned))
      ensures stopped == old(stopped) && running == (old(running) || !stopped)
      ensures passes == old(passes) + if !stopped && !old(running) then 1 else 0
      ensures !stopped ==> pending == old(running)
    {
      if stopped { return; }
      if running {
        pending := true;
        return;
      }
      running := true;
      pending := false;
      passes := passes + 1;
    }

    /** The end of a pass: the loop condition, and the next pass begun at once or the loop left. */
    method PassDone(ghost g: Gate, ghost w: nat)
      requires Shows(g) && w in g.workers && g.workers[w].InStep?
      modifies this
      ensures Shows(if g.pending && !g.stopped then BeginStep(EndStep(g, w), w) else EndStep(g, w))
      ensures running == (old(running) && old(pending) && !stopped) && stopped == old(stopped)
      ensures passes == old(passes) + if old(pending) && !stopped then 1 else 0
    {
      if pending && !stopped {
        pending := false;
        passes := passes + 1;
      } else {
        running := false;
      }
    }

    method StopIt(ghost g: Gate)
      requires Shows(g)
      modifies this
      ensures Shows(Step(g, Stop)) && stopped
    {
      stopped := true;
    }
  }
}
