/**
 * The mutable objects behind the bridge's steps: the correlation map under its mutex, the shared
 * request state with its phase, and the receive loop's iteration.
 */
module BridgeObjects {
  import opened Options
  import opened Bridge
  import opened RequestIds
  import ClaimRace

  /** src/bridge/correlation_map.cpp; every method body is one mutex section. */
  class CorrelationMap {
    var entries: map<nat, Request>
    const maxInflight: nat

    constructor (maxInflight: nat)
      ensures entries == map[] && this.maxInflight == maxInflight
    {
      entries := map[];
      this.maxInflight := maxInflight;
    }

    /** emplace: an occupied key keeps its old entry although the call answers true. */
    method TryInsert(id: nat, q: Request) returns (ok: bool)
      modifies this
      ensures ok <==> |old(entries)| < maxInflight
      ensures entries == if ok && id !in old(entries) then old(entries)[id := q] else old(entries)
    {
      if |entries| >= maxInflight {
        return false;
      }
      if id !in entries {
        entries := entries[id := q];
      }
      ok := true;
    }

    method Claim(id: nat) returns (q: Option<Request>)
      modifies this
      ensures q == if id in old(entries) then Some(old(entries)[id]) else None
      ensures entries == old(entries) - {id}
    {
      if id !in entries {
        assert entries - {id} == entries;
        return None;
      }
      q := Some(entries[id]);
      entries := entries - {id};
    }

    /** Takes out every entry with deadline <= now, in the order the map is walked. */
    method ClaimExpired(now: int) returns (expired: seq<Request>, order: seq<nat>)
      modifies this
      ensures ExpiredOrder(old(entries), now, order)
      ensures |expired| == |order|
      ensures forall i :: 0 <= i < |order| ==> order[i] in old(entries) && expired[i] == old(entries)[order[i]]
      ensures forall i, j :: 0 <= i < j < |order| ==> order[i] != order[j]
      ensures entries == Unexpired(old(entries), now)
    {
      expired, order := [], [];
      ghost var before := entries;
      var rest := entries.Keys;
      while rest != {}
        invariant rest <= before.Keys
        invariant |expired| == |order|
        invariant forall i :: 0 <= i < |order| ==> order[i] in before.Keys - rest && expired[i] == before[order[i]]
        invariant forall i, j :: 0 <= i < j < |order| ==> order[i] != order[j]
        invariant forall k :: k in order <==> k in before.Keys - rest && before[k].deadline <= now
        invariant forall k :: k in entries <==> k in before && (k in rest || before[k].deadline > now)
        invariant forall k :: k in entries ==> entries[k] == before[k]
        decreases rest
      {
        var k :| k in rest;
        if entries[k].deadline <= now {
          expired := expired + [entries[k]];
          order := order + [k];
          entries := entries - {k};
        }
        rest := rest - {k};
      }
      assert (set k | k in order) == set k | k in before && before[k].deadline <= now;
    }
  }

  datatype Phase = Pending | FulfilledPhase | TimedOutPhase | RejectedPhase

  datatype Resumption = Nothing | OnLoop | AtOnce

  function PhaseOf(v: Verdict): Phase {
    match v
    case Fulfilled(_) => FulfilledPhase
    case TimedOut(_) => TimedOutPhase
    case Shutdown => RejectedPhase
  }

  /** src/bridge/request_state.hpp and TdBridge::resolve: the first resolver of a pending state wins. */
  class RequestState {
    var phase: Phase
    var result: Option<Verdict>

    /** What the state of a request holds in a race. */
    predicate Shows(r: ClaimRace.Race<nat, Request, Verdict>, q: Request)
      requires q in r.verdicts
      reads this
    {
      result == r.verdicts[q] && phase == if result.Some? then PhaseOf(result.value) else Pending
    }

    constructor ()
      ensures phase == Pending && result == None
    {
      phase, result := Pending, None;
    }

    /** The holder of a claim resolves it: under the mutex the step that decides it, then the one that wakes it. */
    method ResolveWith(ghost r: ClaimRace.Race<nat, Request, Verdict>, ghost i: nat, v: Verdict, loopRunning: bool)
      returns (how: Resumption)
      requires i < |r.claims| && r.claims[i].verdict == v
      requires r.claims[i].node in r.verdicts && Shows(r, r.claims[i].node)
      modifies this
      ensures var n := ClaimRace.DecideClaim(r, i); var q := r.claims[i].node;
        && q in n.verdicts && Shows(n, q)
        && (how == Nothing <==> n == r)
        && (how != Nothing ==> ClaimRace.WakeClaim(n, i, loopRunning).resumptions == r.resumptions + [q])
        && (how == OnLoop <==> how != Nothing && loopRunning)
      ensures how == Nothing <==> old(phase) != Pending
      ensures how == Nothing ==> phase == old(phase) && result == old(result)
      ensures how != Nothing ==> result == Some(v)
      ensures how != Nothing ==> (phase == FulfilledPhase <==> v.Fulfilled?)
      ensures how != Nothing ==> (phase == TimedOutPhase <==> v.TimedOut?)
      ensures how != Nothing ==> (phase == RejectedPhase <==> v.Shutdown?)
    {
      if phase != Pending {
        return Nothing;
      }
      phase := PhaseOf(v);
      result := Some(v);
      how := if loopRunning then OnLoop else AtOnce;
    }
  }

  /** TdBridge with its map and its generator, beside the state of the step system it stands for. */
  class TdBridge {
    const config: Config
    const corr: CorrelationMap
    const ids: RequestIdGenerator
    var lastSweep: int

    ghost predicate Shows(s: State)
      reads this, corr, ids
    {
      && ids.Valid() && ids.calls == s.calls
      && corr.maxInflight == config.maxInflight && corr.entries == s.race.table
      && lastSweep == s.lastSweep
    }

    constructor (config: Config, start: int)
      ensures Shows(Start(start)) && fresh(corr) && fresh(ids) && this.config == config
    {
      this.config := config;
      corr := new CorrelationMap(config.maxInflight);
      ids := new RequestIdGenerator();
      lastSweep := start;
    }

    /** await_suspend: id and deadline, then insertion; false means the coroutine continues at once with 503. */
    method AwaitSuspend(ghost s: State, clock: int) returns (suspended: bool, id: nat)
      requires Shows(s) && NewNumber(s, s.calls + 1) && clock == s.clock
      modifies corr, ids
      ensures Shows(Called(config, s)) && id == IdAt(s.calls + 1)
      ensures suspended <==> !AnsweredBusy(Called(config, s), s.calls + 1)
    {
      id := ids.Next();
      RegisterEffect(config, s, s.calls + 1, id);
      suspended := corr.TryInsert(id, Request(ids.calls, clock + config.ttl, clock));
    }

    /** The guarded sweep of one iteration of the receive loop, and what it took out. */
    method ReceiveIteration(ghost s: State, now: int) returns (timedOut: seq<Request>, order: seq<nat>)
      requires Shows(s) && s.lastSweep <= now <= s.clock
      modifies this`lastSweep, corr
      ensures Shows(Bridge.Step(config, s, Receive(now, order)))
      ensures |timedOut| == |order|
      ensures forall i :: 0 <= i < |order| ==> order[i] in s.race.table && timedOut[i] == s.race.table[order[i]]
      ensures HandedOver(s, Bridge.Step(config, s, Receive(now, order)), timedOut, TimedOut(now))
      ensures now - old(lastSweep) < config.interval ==> timedOut == [] && corr.entries == old(corr.entries)
      ensures now - old(lastSweep) >= config.interval ==>
        forall k :: k in corr.entries <==> k in old(corr.entries) && old(corr.entries)[k].deadline > now
    {
      timedOut, order := [], [];
      if now - lastSweep >= config.interval {
        timedOut, order := corr.ClaimExpired(now);
        SweepLeaves(s, now, order);
        TicketsOf(s, order, timedOut, TimedOut(now));
        lastSweep := now;
      }
    }

    /** A response: the claimed request is going to be fulfilled; an unknown id, and id 0, take nothing out. */
    method Dispatch(ghost s: State, id: nat, ghost obj: int) returns (q: Option<Request>)
      requires Shows(s)
      modifies corr
      ensures var r := Bridge.Step(config, s, Respond(id, obj));
        && Shows(r)
        && r.race.claims == s.race.claims + if q.Some? then [ClaimRace.Ticket(q.value, Fulfilled(obj))] else []
    {
      if id == 0 {
        return None;
      }
      ClaimRace.ClaimSingle(s.race, id, Fulfilled(obj));
      q := corr.Claim(id);
    }

    /** drainPending: a sweep at a time no deadline lies beyond. */
    method DrainPending(ghost s: State, endOfTime: int) returns (rejected: seq<Request>, order: seq<nat>)
      requires Shows(s) && forall k :: k in corr.entries ==> corr.entries[k].deadline <= endOfTime
      modifies corr
      ensures Shows(Bridge.Step(config, s, Drain(order))) && corr.entries == map[]
      ensures (set k | k in order) == s.race.table.Keys
      ensures HandedOver(s, Bridge.Step(config, s, Drain(order)), rejected, Shutdown)
    {
      rejected, order := corr.ClaimExpired(endOfTime);
      TicketsOf(s, order, rejected, Shutdown);
      assert (set k | k in order) == s.race.table.Keys;
      assert corr.entries == map[];
      DrainEmpties(config, s, order);
    }
  }

  /** The requests taken out, in their order, each to be resolved with the verdict. */
  predicate HandedOver(s: State, r: State, qs: seq<Request>, v: Verdict) {
    && |r.race.claims| == |s.race.claims| + |qs| && s.race.claims <= r.race.claims
    && forall i | 0 <= i < |qs| :: r.race.claims[|s.race.claims| + i] == ClaimRace.Ticket(qs[i], v)
  }

  lemma TicketsOf(s: State, order: seq<nat>, qs: seq<Request>, v: Verdict)
    requires |qs| == |order| && forall i, j | 0 <= i < j < |order| :: order[i] != order[j]
    requires forall i | 0 <= i < |order| :: order[i] in s.race.table && qs[i] == s.race.table[order[i]]
    ensures HandedOver(s, s.(race := ClaimRace.ClaimAll(s.race, order, v)), qs, v)
  {
    ClaimRace.ClaimAllTickets(s.race, order, v);
    ClaimRace.TicketsInOrder(s.race.table, order, v);
  }

  lemma DrainEmpties(c: Config, s: State, order: seq<nat>)
    requires (set k | k in order) == s.race.table.Keys
    ensures Bridge.Step(c, s, Drain(order)).race.table == map[]
  {
    DrainTakesAll(c, s, order);
    ClaimRace.ClaimAllEffect(s.race, order, Shutdown);
  }

  /** The two steps of a call: it allocates the next number, and registers it. */
  function Called(c: Config, s: State): State {
    var n := s.calls + 1;
    Bridge.Step(c, Bridge.Step(c, Bridge.Step(c, s, Allocate), ReadDeadline(n)), Register(n))
  }

  predicate AnsweredBusy(s: State, n: nat) {
    n in s.coroutines && s.coroutines[n].Busy?
  }

  /** A number that is new to the race. */
  ghost predicate NewNumber(s: State, n: nat) {
    forall q | q in s.race.verdicts :: q.number != n
  }

  /** In every reachable state the next number is new. */
  lemma NextNumberIsNew(s: State)
    requires NumbersOk(s)
    ensures NewNumber(s, s.calls + 1)
  {
  }

  lemma RegisterOutcome(c: Config, m: State, n: nat, k: nat, q: Request)
    requires n in m.coroutines && n > 0 && m.coroutines[n] == Unsent(q.deadline) && k == IdAt(n)
    requires q == Request(n, q.deadline, m.clock) && q !in m.race.verdicts
    ensures var r := Bridge.Step(c, m, Register(n));
      && r.calls == m.calls && r.lastSweep == m.lastSweep
      && (AnsweredBusy(r, n) <==> |m.race.table| >= c.maxInflight)
      && r.race.table ==
        if |m.race.table| < c.maxInflight && k !in m.race.table then m.race.table[k := q] else m.race.table
  {
  }

  /** A call is refused at the limit, and else entered if its id is free. */
  lemma RegisterEffect(c: Config, s: State, n: nat, k: nat)
    requires NewNumber(s, n) && n == s.calls + 1 && k == IdAt(n)
    ensures var r := Called(c, s);
      && r.calls == n && r.lastSweep == s.lastSweep
      && (AnsweredBusy(r, n) <==> |s.race.table| >= c.maxInflight)
      && r.race.table ==
        if |s.race.table| < c.maxInflight && k !in s.race.table
        then s.race.table[k := Request(n, s.clock + c.ttl, s.clock)] else s.race.table
  {
    var m := Bridge.Step(c, Bridge.Step(c, s, Allocate), ReadDeadline(n));
    RegisterOutcome(c, m, n, k, Request(n, s.clock + c.ttl, s.clock));
  }
}
