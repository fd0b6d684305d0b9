/**
 * The TDLib bridge as a step system (src/bridge/td_bridge.cpp): coroutines allocate an id, register and
 * send; responses, the TTL sweep and drains take entries out of the correlation map and resolve them.
 * Steps of all threads interleave freely; a mutex section is one step.
 */
module Bridge {
  import opened Options
  import opened ClaimRace
  import opened RequestIds

  /** A registered call: the number of the id generator's call, its deadline, and when it was inserted. */
  datatype Request = Request(number: nat, deadline: int, insertedAt: int)

  datatype Verdict = Fulfilled(object: int) | TimedOut(at: int) | Shutdown

  datatype Config = Config(maxInflight: nat, ttl: int, interval: int)

  /**
   * A coroutine in await_suspend: with its id only, with its deadline but not registered, suspended, answered
   * 503, or its emplace met an occupied key.
   */
  datatype Coroutine = Numbered | Unsent(deadline: int) | Suspended | Busy | Lost

  datatype State = State(
    calls: nat,                       // ids handed out so far
    coroutines: map<nat, Coroutine>,  // by number of call, except one-way sends
    race: Race<nat, Request, Verdict>,
    clock: int,
    lastSweep: int)

  datatype Action =
    | Tick(now: int)
    | Allocate
    | ReadDeadline(number: nat)
    | SendOneWay
    | Register(number: nat)
    | Respond(id: nat, object: int)
    | Receive(now: int, order: seq<nat>)  // one receive-loop iteration up to its sweep
    | Drain(order: seq<nat>)
    | Settle(claim: nat)
    | Wake(claim: nat, loopRunning: bool)
    | Resume(resumption: nat)

  function Start(clock: int): State {
    State(0, map[], Empty(), clock, clock)
  }

  /** What a sweep at `now` leaves in the map. */
  function Unexpired(table: map<nat, Request>, now: int): map<nat, Request> {
    map k | k in table && table[k].deadline > now :: table[k]
  }

  /** The order visits exactly the entries the sweep takes out. */
  predicate ExpiredOrder(table: map<nat, Request>, now: int, order: seq<nat>) {
    (set k | k in order) == set k | k in table && table[k].deadline <= now
  }

  function Step(c: Config, s: State, a: Action): State {
    match a
    case Tick(now) => if now >= s.clock then s.(clock := now) else s
    case Allocate => s.(calls := s.calls + 1, coroutines := s.coroutines[s.calls + 1 := Numbered])
    case ReadDeadline(n) =>
      if n in s.coroutines && s.coroutines[n].Numbered? then
        s.(coroutines := s.coroutines[n := Unsent(s.clock + c.ttl)])
      else s
    case SendOneWay => s.(calls := s.calls + 1)
    case Register(n) =>
      if n == 0 || n !in s.coroutines || !s.coroutines[n].Unsent? then s
      else if |s.race.table| >= c.maxInflight then s.(coroutines := s.coroutines[n := Busy])
      else if IdAt(n) in s.race.table then s.(coroutines := s.coroutines[n := Lost])
      else
        s.(coroutines := s.coroutines[n := Suspended],
           race := ClaimRace.Step(s.race, Insert(IdAt(n), Request(n, s.coroutines[n].deadline, s.clock))))
    case Respond(id, obj) =>
      if id == 0 then s else s.(race := ClaimRace.Step(s.race, Claim([id], Fulfilled(obj))))
    case Receive(now, order) =>
      if now < s.lastSweep || now > s.clock then s
      else if now - s.lastSweep >= c.interval then
        if ExpiredOrder(s.race.table, now, order) then
          s.(race := ClaimRace.Step(s.race, Claim(order, TimedOut(now))), lastSweep := now)
        else s
      else s
    case Drain(order) =>
      if (set k | k in order) == s.race.table.Keys then
        s.(race := ClaimRace.Step(s.race, Claim(order, Shutdown)))
      else s
    case Settle(i) => s.(race := ClaimRace.Step(s.race, Resolve(i)))
    case Wake(i, running) => s.(race := ClaimRace.Step(s.race, ClaimRace.Action.Wake(i, running)))
    case Resume(i) => s.(race := ClaimRace.Step(s.race, RunQueued(i)))
  }

  function Run(c: Config, s: State, acts: seq<Action>): State
    decreases |acts|
  {
    if acts == [] then s else Run(c, Step(c, s, acts[0]), acts[1..])
  }

  // ------------------------------------------------------------------ the invariant

  /** Each accepted request belongs to the suspended coroutine of its number. */
  ghost predicate NumbersOk(s: State) {
    && (forall n | n in s.coroutines :: 1 <= n <= s.calls)
    && (forall q | q in s.race.verdicts :: q.number in s.coroutines && s.coroutines[q.number].Suspended?)
    && (forall q, p | q in s.race.verdicts && p in s.race.verdicts && q.number == p.number :: q == p)
  }

  /** An entry stands under the id of its number, which is a suspended coroutine's. */
  predicate EntryOk(s: State, k: nat)
    requires k in s.race.table
  {
    var n := s.race.table[k].number;
    1 <= n <= s.calls && k == IdAt(n) && n in s.coroutines && s.coroutines[n].Suspended?
  }

  ghost predicate EntriesOk(s: State) {
    forall k | k in s.race.table :: EntryOk(s, k)
  }

  ghost predicate NoneLost(s: State) {
    forall n | n in s.coroutines :: !s.coroutines[n].Lost?
  }

  /** Until the ids repeat no registration is lost. */
  ghost predicate KeysOk(s: State) {
    EntriesOk(s) && (s.calls <= WORD - 1 ==> NoneLost(s))
  }

  ghost predicate TimesOk(c: Config, s: State) {
    && s.lastSweep <= s.clock
    && |s.race.table| <= c.maxInflight
    && (forall k | k in s.race.table ::
         s.race.table[k].deadline > s.lastSweep || s.race.table[k].insertedAt >= s.lastSweep)
  }

  /** A waiter is timed out only at or after its deadline. */
  ghost predicate TimeoutsOk(s: State) {
    && (forall i | 0 <= i < |s.race.claims| && s.race.claims[i].verdict.TimedOut? ::
         s.race.claims[i].node.deadline <= s.race.claims[i].verdict.at <= s.clock)
  }

  ghost predicate HasRequest(s: State, n: nat) {
    exists q :: q in s.race.verdicts && q.number == n
  }

  /** Each suspended coroutine has its request, registered or taken out. */
  ghost predicate SuspendedOk(s: State) {
    forall n | n in s.coroutines && s.coroutines[n].Suspended? :: HasRequest(s, n)
  }

  ghost predicate Own(c: Config, s: State) {
    NumbersOk(s) && SuspendedOk(s) && KeysOk(s) && TimesOk(c, s) && TimeoutsOk(s)
  }

  ghost predicate Inv(c: Config, s: State) {
    ClaimRace.Inv(s.race) && Own(c, s)
  }

  lemma TableShrinks<V>(m: map<nat, V>, ks: set<nat>)
    ensures |m - ks| <= |m|
  {
    assert (m - ks).Keys == m.Keys - ks;
    assert |(m - ks).Keys| <= |m.Keys|;
  }

  lemma ClaimKeepsTimeouts(s: State, order: seq<nat>, v: Verdict)
    requires TimeoutsOk(s)
    requires v.TimedOut? ==> ExpiredOrder(s.race.table, v.at, order) && v.at <= s.clock
    ensures TimeoutsOk(s.(race := ClaimAll(s.race, order, v)))
  {
    ClaimAllEffect(s.race, order, v);
    var r := ClaimAll(s.race, order, v);
    forall i | 0 <= i < |r.claims| && r.claims[i].verdict.TimedOut?
      ensures r.claims[i].node.deadline <= r.claims[i].verdict.at <= s.clock
    {
      if i < |s.race.claims| {
        assert r.claims[i] == s.race.claims[i];
      } else {
        assert r.claims[i].verdict == v && TakenFrom(s.race.table, order, r.claims[i].node);
        var k :| k in order && k in s.race.table && s.race.table[k] == r.claims[i].node;
        var visited := set l | l in order;
        assert k in visited;
        assert ExpiredOrder(s.race.table, v.at, order);
      }
    }
  }

  /** A sweep leaves exactly the entries whose deadline lies ahead. */
  lemma SweepLeaves(s: State, now: int, order: seq<nat>)
    requires ExpiredOrder(s.race.table, now, order)
    ensures ClaimAll(s.race, order, TimedOut(now)).table == Unexpired(s.race.table, now)
  {
    ClaimAllEffect(s.race, order, TimedOut(now));
    var ks := set k | k in order;
    assert forall k | k in s.race.table :: k in ks <==> s.race.table[k].deadline <= now;
  }

  lemma RequestsStay(s: State, r: State, n: nat)
    requires HasRequest(s, n) && s.race.verdicts.Keys <= r.race.verdicts.Keys
    ensures HasRequest(r, n)
  {
    var q :| q in s.race.verdicts && q.number == n;
    assert q in r.race.verdicts;
  }

  /** The steps that suspend nobody. */
  lemma NobodySuspends(s: State, r: State)
    requires SuspendedOk(s) && s.race.verdicts.Keys <= r.race.verdicts.Keys
    requires forall n | n in r.coroutines && r.coroutines[n].Suspended? ::
      n in s.coroutines && s.coroutines[n].Suspended?
    ensures SuspendedOk(r)
  {
    forall n | n in r.coroutines && r.coroutines[n].Suspended? ensures HasRequest(r, n) {
      RequestsStay(s, r, n);
    }
  }

  /** The same but for waiters taken out of the map or decided. */
  ghost predicate Subtable(s: State, r: State) {
    && r == s.(race := r.race)
    && r.race.verdicts.Keys == s.race.verdicts.Keys
    && r.race.table.Keys <= s.race.table.Keys
    && (forall k | k in r.race.table :: r.race.table[k] == s.race.table[k])
  }

  lemma SubtableKeepsNumbers(s: State, r: State)
    requires NumbersOk(s) && Subtable(s, r)
    ensures NumbersOk(r)
  {
  }

  lemma SubtableKeepsKeys(s: State, r: State)
    requires KeysOk(s) && Subtable(s, r)
    ensures KeysOk(r)
  {
  }

  lemma SubtableKeepsTimes(c: Config, s: State, r: State)
    requires TimesOk(c, s) && Subtable(s, r) && |r.race.table| <= |s.race.table|
    ensures TimesOk(c, r)
  {
  }

  lemma SubtableKeepsOwn(c: Config, s: State, r: State)
    requires Own(c, s) && Subtable(s, r) && |r.race.table| <= |s.race.table| && TimeoutsOk(r)
    ensures Own(c, r)
  {
    SubtableKeepsNumbers(s, r);
    NobodySuspends(s, r);
    SubtableKeepsKeys(s, r);
    SubtableKeepsTimes(c, s, r);
  }

  lemma ClaimIsSubtable(s: State, order: seq<nat>, v: Verdict)
    ensures var r := s.(race := ClaimAll(s.race, order, v)); Subtable(s, r) && |r.race.table| <= |s.race.table|
  {
    ClaimAllEffect(s.race, order, v);
    TableShrinks(s.race.table, set k | k in order);
  }

  lemma ClaimKeepsOwn(c: Config, s: State, order: seq<nat>, v: Verdict)
    requires Own(c, s)
    requires v.TimedOut? ==> ExpiredOrder(s.race.table, v.at, order) && v.at <= s.clock
    ensures Own(c, s.(race := ClaimAll(s.race, order, v)))
  {
    ClaimKeepsTimeouts(s, order, v);
    ClaimIsSubtable(s, order, v);
    SubtableKeepsOwn(c, s, s.(race := ClaimAll(s.race, order, v)));
  }

  lemma RegisterKeepsEntry(c: Config, s: State, n: nat, k: nat)
    requires n in s.coroutines ==> 1 <= n <= s.calls
    requires k in s.race.table ==> EntryOk(s, k)
    requires k in Step(c, s, Register(n)).race.table
    ensures EntryOk(Step(c, s, Register(n)), k)
  {
  }

  lemma RegisterKeepsEntries(c: Config, s: State, n: nat)
    requires NumbersOk(s) && EntriesOk(s)
    ensures EntriesOk(Step(c, s, Register(n)))
  {
    forall k | k in Step(c, s, Register(n)).race.table ensures EntryOk(Step(c, s, Register(n)), k) {
      RegisterKeepsEntry(c, s, n, k);
    }
  }

  /** The id of a number not sent yet is free. */
  lemma IdIsFree(s: State, n: nat)
    requires NumbersOk(s) && EntriesOk(s) && s.calls <= WORD - 1 && n in s.coroutines && s.coroutines[n].Unsent?
    ensures IdAt(n) !in s.race.table
  {
    if IdAt(n) in s.race.table {
      IdsDistinct(n, s.race.table[IdAt(n)].number);
      assert false;
    }
  }

  lemma RegisterKeepsKeys(c: Config, s: State, n: nat)
    requires NumbersOk(s) && KeysOk(s)
    ensures KeysOk(Step(c, s, Register(n)))
  {
    RegisterKeepsEntries(c, s, n);
    if n in s.coroutines && s.coroutines[n].Unsent? && s.calls <= WORD - 1 {
      IdIsFree(s, n);
      assert NoneLost(Step(c, s, Register(n)));
    }
  }

  lemma RegisterKeepsNumbers(c: Config, s: State, n: nat)
    requires NumbersOk(s)
    ensures NumbersOk(Step(c, s, Register(n)))
  {
  }

  lemma RegisterKeepsTimes(c: Config, s: State, n: nat)
    requires TimesOk(c, s) && TimeoutsOk(s)
    ensures TimesOk(c, Step(c, s, Register(n))) && TimeoutsOk(Step(c, s, Register(n)))
  {
    assert Step(c, s, Register(n)).race.claims == s.race.claims;
  }

  lemma SettleIsSubtable(s: State, a: ClaimRace.Action<nat, Request, Verdict>)
    requires a.Resolve? || a.Wake? || a.RunQueued?
    ensures var r := s.(race := ClaimRace.Step(s.race, a));
      Subtable(s, r) && r.race.table == s.race.table && r.race.claims == s.race.claims
  {
  }

  lemma SettleKeepsOwn(c: Config, s: State, a: ClaimRace.Action<nat, Request, Verdict>)
    requires Own(c, s) && (a.Resolve? || a.Wake? || a.RunQueued?)
    ensures Own(c, s.(race := ClaimRace.Step(s.race, a)))
  {
    SettleIsSubtable(s, a);
    SubtableKeepsOwn(c, s, s.(race := ClaimRace.Step(s.race, a)));
  }

  /** The map's times after a sweep: what is left has its deadline ahead. */
  lemma SweepKeepsTimes(c: Config, s: State, now: int, order: seq<nat>)
    requires |s.race.table| <= c.maxInflight && ExpiredOrder(s.race.table, now, order) && now <= s.clock
    ensures TimesOk(c, s.(race := ClaimAll(s.race, order, TimedOut(now)), lastSweep := now))
  {
    SweepLeaves(s, now, order);
    ClaimIsSubtable(s, order, TimedOut(now));
  }

  /** Only TimesOk looks at the time of the last sweep. */
  lemma SweptOwn(c: Config, s: State, now: int)
    requires Own(c, s) && TimesOk(c, s.(lastSweep := now))
    ensures Own(c, s.(lastSweep := now))
  {
    NobodySuspends(s, s.(lastSweep := now));
  }

  lemma ReceiveKeepsOwn(c: Config, s: State, now: int, order: seq<nat>)
    requires Own(c, s)
    ensures Own(c, Step(c, s, Receive(now, order)))
  {
    var r := Step(c, s, Receive(now, order));
    if r != s {
      ClaimKeepsOwn(c, s, order, TimedOut(now));
      SweepKeepsTimes(c, s, now, order);
      SweptOwn(c, s.(race := ClaimAll(s.race, order, TimedOut(now))), now);
    }
  }

  lemma RegisterKeepsOwn(c: Config, s: State, n: nat)
    requires Own(c, s)
    ensures Own(c, Step(c, s, Register(n)))
  {
    RegisterKeepsKeys(c, s, n);
    RegisterKeepsNumbers(c, s, n);
    RegisterKeepsSuspended(c, s, n);
    RegisterKeepsTimes(c, s, n);
  }

  lemma RegisterKeepsSuspended(c: Config, s: State, n: nat)
    requires NumbersOk(s) && SuspendedOk(s)
    ensures SuspendedOk(Step(c, s, Register(n)))
  {
    var r := Step(c, s, Register(n));
    forall m | m in r.coroutines && r.coroutines[m].Suspended? ensures HasRequest(r, m) {
      if m in s.coroutines && s.coroutines[m].Suspended? {
        RequestsStay(s, r, m);
      } else {
        var q := Request(n, s.coroutines[n].deadline, s.clock);
        assert q !in s.race.verdicts;
        assert q in r.race.verdicts && q.number == m;
      }
    }
  }

  /** The steps that take no part in the race. */
  predicate Issues(a: Action) {
    a.Tick? || a.Allocate? || a.ReadDeadline? || a.SendOneWay?
  }

  lemma IssueKeepsNumbers(c: Config, s: State, a: Action)
    requires NumbersOk(s) && SuspendedOk(s) && Issues(a)
    ensures NumbersOk(Step(c, s, a)) && SuspendedOk(Step(c, s, a))
  {
    NobodySuspends(s, Step(c, s, a));
  }

  lemma IssueKeepsKeys(c: Config, s: State, a: Action)
    requires NumbersOk(s) && KeysOk(s) && Issues(a)
    ensures KeysOk(Step(c, s, a))
  {
  }

  lemma IssueKeepsTimes(c: Config, s: State, a: Action)
    requires TimesOk(c, s) && TimeoutsOk(s) && Issues(a)
    ensures TimesOk(c, Step(c, s, a)) && TimeoutsOk(Step(c, s, a))
  {
  }

  lemma IssueKeepsOwn(c: Config, s: State, a: Action)
    requires Own(c, s) && Issues(a)
    ensures Own(c, Step(c, s, a))
  {
    IssueKeepsNumbers(c, s, a);
    IssueKeepsKeys(c, s, a);
    IssueKeepsTimes(c, s, a);
  }

  /** The step is one of the race and nothing else. */
  predicate OnlyRace(a: Action) {
    a.Settle? || a.Wake? || a.Resume? || a.Respond? || a.Drain?
  }

  lemma OnlyRaceSteps(c: Config, s: State, a: Action)
    requires OnlyRace(a)
    ensures Step(c, s, a) == s.(race := Step(c, s, a).race)
  {
  }

  /** A step of the race that registers nobody, or none. */
  lemma RaceStepKeepsOwn(c: Config, s: State, steps: seq<ClaimRace.Action<nat, Request, Verdict>>)
    requires Own(c, s) && |steps| <= 1
    requires forall a | a in steps :: !a.Insert? && (a.Claim? ==> !a.verdict.TimedOut?)
    ensures Own(c, s.(race := ClaimRace.Run(s.race, steps)))
  {
    if steps == [] {
      assert s.(race := s.race) == s;
    } else {
      assert steps == [steps[0]] && steps[1..] == [];
      if steps[0].Claim? {
        ClaimKeepsOwn(c, s, steps[0].keys, steps[0].verdict);
      } else {
        SettleKeepsOwn(c, s, steps[0]);
      }
    }
  }

  lemma OnlyRaceKeepsOwn(c: Config, s: State, a: Action)
    requires Own(c, s) && OnlyRace(a)
    ensures Own(c, Step(c, s, a))
  {
    OnlyRaceSteps(c, s, a);
    StepIsRaceStep(c, s, a);
    RaceStepKeepsOwn(c, s, RaceSteps(c, s, a));
  }

  lemma StepKeepsOwn(c: Config, s: State, a: Action)
    requires Own(c, s)
    ensures Own(c, Step(c, s, a))
  {
    match a {
      case Register(n) => RegisterKeepsOwn(c, s, n);
      case Receive(now, order) => ReceiveKeepsOwn(c, s, now, order);
      case _ => if Issues(a) { IssueKeepsOwn(c, s, a); } else { OnlyRaceKeepsOwn(c, s, a); }
    }
  }

  /** The step of the race a bridge step is, or none. */
  function RaceSteps(c: Config, s: State, a: Action): seq<ClaimRace.Action<nat, Request, Verdict>> {
    match a
    case Register(n) =>
      if n != 0 && n in s.coroutines && s.coroutines[n].Unsent? && |s.race.table| < c.maxInflight then
        [Insert(IdAt(n), Request(n, s.coroutines[n].deadline, s.clock))]
      else []
    case Respond(id, obj) => if id == 0 then [] else [Claim([id], Fulfilled(obj))]
    case Receive(now, order) =>
      if s.lastSweep <= now <= s.clock && now - s.lastSweep >= c.interval && ExpiredOrder(s.race.table, now, order) then
        [Claim(order, TimedOut(now))]
      else []
    case Drain(order) => if (set k | k in order) == s.race.table.Keys then [Claim(order, Shutdown)] else []
    case Settle(i) => [Resolve(i)]
    case Wake(i, running) => [ClaimRace.Action.Wake(i, running)]
    case Resume(i) => [RunQueued(i)]
    case _ => []
  }

  lemma StepIsRaceStep(c: Config, s: State, a: Action)
    ensures Step(c, s, a).race == ClaimRace.Run(s.race, RaceSteps(c, s, a))
  {
    var steps := RaceSteps(c, s, a);
    assert steps != [] ==> steps[1..] == [];
  }

  lemma StepKeepsInv(c: Config, s: State, a: Action)
    requires Inv(c, s)
    ensures Inv(c, Step(c, s, a))
  {
    StepKeepsOwn(c, s, a);
    StepIsRaceStep(c, s, a);
    ClaimRace.RunKeepsInv(s.race, RaceSteps(c, s, a));
  }

  lemma {:induction false} RunKeepsInv(c: Config, s: State, acts: seq<Action>)
    requires Inv(c, s)
    ensures Inv(c, Run(c, s, acts))
    decreases |acts|
  {
    if acts != [] {
      StepKeepsInv(c, s, acts[0]);
      RunKeepsInv(c, Step(c, s, acts[0]), acts[1..]);
    }
  }

  lemma InvAtStart(c: Config, clock: int)
    ensures Inv(c, Start(clock))
  {
  }

  // ------------------------------------------------------------------ over every run from the start

  /**
   * In every interleaving: the map never exceeds the limit, and each accepted request is in exactly one
   * place: in the map, in one resolver's hand, or resolved with its resolver's verdict, and then resumed once or
   * about to be.
   */
  lemma EveryRequestOncePlaced(c: Config, clock: int, acts: seq<Action>, q: Request)
    requires q in Run(c, Start(clock), acts).race.verdicts
    ensures var r := Run(c, Start(clock), acts).race;
      && |r.table| <= c.maxInflight
      && Registered(r, q) != Claimed(r, q)
      && (Registered(r, q) ==> r.verdicts[q].None? && q !in r.resumptions)
      && (Claimed(r, q) ==> exists i: nat :: OnlyClaim(r, q, i))
      && ResumedIfDecided(r, q)
  {
    InvAtStart(c, clock);
    RunKeepsInv(c, Start(clock), acts);
    OnePlaceEach(Run(c, Start(clock), acts).race, q);
  }

  predicate CameToRegister(co: Coroutine) {
    !co.Numbered? && !co.Unsent?
  }

  /**
   * While fewer than 2^64 ids were handed out, a coroutine that tried to register was answered that the map
   * is full, or it is suspended, and then, and only then, it has its request: none is lost.
   */
  lemma NoRegistrationLost(c: Config, clock: int, acts: seq<Action>, n: nat)
    requires var r := Run(c, Start(clock), acts);
      r.calls <= WORD - 1 && n in r.coroutines && CameToRegister(r.coroutines[n])
    ensures var r := Run(c, Start(clock), acts);
      && (r.coroutines[n].Suspended? <==> !r.coroutines[n].Busy?)
      && (r.coroutines[n].Suspended? <==> HasRequest(r, n))
  {
    InvAtStart(c, clock);
    RunKeepsInv(c, Start(clock), acts);
  }

  /** The race's part of a run. */
  function RaceRun(c: Config, s: State, acts: seq<Action>): seq<ClaimRace.Action<nat, Request, Verdict>>
    decreases |acts|
  {
    if acts == [] then [] else RaceSteps(c, s, acts[0]) + RaceRun(c, Step(c, s, acts[0]), acts[1..])
  }

  lemma {:induction false} RunIsRaceRun(c: Config, s: State, acts: seq<Action>)
    ensures Run(c, s, acts).race == ClaimRace.Run(s.race, RaceRun(c, s, acts))
    decreases |acts|
  {
    if acts != [] {
      StepIsRaceStep(c, s, acts[0]);
      RunIsRaceRun(c, Step(c, s, acts[0]), acts[1..]);
      ClaimRace.RunAppend(s.race, RaceSteps(c, s, acts[0]), RaceRun(c, Step(c, s, acts[0]), acts[1..]));
    }
  }

  lemma DrainTakesAll(c: Config, s: State, order: seq<nat>)
    requires (set k | k in order) == s.race.table.Keys
    ensures forall k | k in s.race.table :: k in order
    ensures Step(c, s, Drain(order)).race == ClaimAll(s.race, order, Shutdown)
  {
    var visited := set l | l in order;
    forall k | k in s.race.table ensures k in order {
      assert k in visited;
    }
  }

  /**
   * After drainPending no request registered before it ever waits in the map again, and once nobody
   * holds a ticket for it any more (the drain is done and the receiver joined) it is resolved.
   */
  lemma DrainResolvesAll(c: Config, s: State, order: seq<nat>, acts: seq<Action>, q: Request)
    requires Inv(c, s) && q in s.race.verdicts && (set k | k in order) == s.race.table.Keys
    ensures var r := Run(c, Step(c, s, Drain(order)), acts).race;
      && q in r.verdicts
      && !Registered(r, q)
      && (r.verdicts[q].Some? <==> !Held(r, q))
  {
    DrainTakesAll(c, s, order);
    RunIsRaceRun(c, Step(c, s, Drain(order)), acts);
    DrainLeavesOnlyHands(s.race, order, Shutdown, RaceRun(c, Step(c, s, Drain(order)), acts), q);
  }

  /** The request is out of the map for good, and decided exactly if nobody holds it. */
  ghost predicate TakenOut(r: State, q: Request) {
    q in r.race.verdicts && !Registered(r.race, q) && (r.race.verdicts[q].Some? <==> !Held(r.race, q))
  }

  /** So every coroutine that was suspended when the drain came has its answer once nobody holds its request. */
  lemma DrainAnswersEveryone(c: Config, clock: int, acts: seq<Action>, order: seq<nat>, more: seq<Action>, n: nat)
    requires var s := Run(c, Start(clock), acts);
      n in s.coroutines && s.coroutines[n].Suspended? && (set k | k in order) == s.race.table.Keys
    ensures var s := Run(c, Start(clock), acts);
      exists q :: q in s.race.verdicts && q.number == n && TakenOut(Run(c, Step(c, s, Drain(order)), more), q)
  {
    var s := Run(c, Start(clock), acts);
    InvAtStart(c, clock);
    RunKeepsInv(c, Start(clock), acts);
    assert HasRequest(s, n);
    var q :| q in s.race.verdicts && q.number == n;
    DrainResolvesAll(c, s, order, more, q);
    assert TakenOut(Run(c, Step(c, s, Drain(order)), more), q);
  }

  /** In every run whoever took a request out can decide and wake it, and so ends it with the verdict of the claim. */
  lemma HolderResolves(c: Config, clock: int, acts: seq<Action>, s: State, i: nat, running: bool)
    requires s == Run(c, Start(clock), acts) && i in s.race.hands
    ensures i < |s.race.claims|
    ensures var t := s.race.claims[i]; var r := Step(c, Step(c, s, Settle(i)), Action.Wake(i, running)).race;
      && r.verdicts == s.race.verdicts[t.node := Some(t.verdict)] && r.hands == s.race.hands - {i}
      && r.resumptions == s.race.resumptions + [t.node]
  {
    RaceInRuns(c, clock, acts);
    HolderEffect(c, s, i, running);
  }

  lemma HolderEffect(c: Config, s: State, i: nat, running: bool)
    requires ClaimsOk(s.race) && WakingOk(s.race) && i in s.race.hands
    ensures i < |s.race.claims|
    ensures var t := s.race.claims[i]; var r := Step(c, Step(c, s, Settle(i)), Action.Wake(i, running)).race;
      && r.verdicts == s.race.verdicts[t.node := Some(t.verdict)] && r.hands == s.race.hands - {i}
      && r.resumptions == s.race.resumptions + [t.node]
  {
    HolderEnds(s.race, i, running);
  }

  lemma RaceInRuns(c: Config, clock: int, acts: seq<Action>)
    ensures ClaimRace.Inv(Run(c, Start(clock), acts).race)
  {
    InvAtStart(c, clock);
    RunKeepsInv(c, Start(clock), acts);
  }

  lemma EntriesInRuns(c: Config, clock: int, acts: seq<Action>, id: nat)
    requires id in Run(c, Start(clock), acts).race.table
    ensures id > 0
  {
    InvAtStart(c, clock);
    RunKeepsInv(c, Start(clock), acts);
    var s := Run(c, Start(clock), acts);
    assert EntryOk(s, id);
    IdsRepeatExactly(s.race.table[id].number, 1);
  }

  lemma ResponseEffect(c: Config, s: State, id: nat, obj: int)
    requires id > 0 && TableOk(s.race) && id in s.race.table
    ensures var q := s.race.table[id]; var r := Step(c, Step(c, s, Respond(id, obj)), Settle(|s.race.claims|)).race;
      id !in r.table && r.verdicts == s.race.verdicts[q := Some(Fulfilled(obj))]
  {
    ClaimThenResolve(s.race, id, Fulfilled(obj));
  }

  /** The response to a request that is still registered is its answer. */
  lemma ResponseAnswers(c: Config, clock: int, acts: seq<Action>, s: State, id: nat, obj: int)
    requires s == Run(c, Start(clock), acts) && id in s.race.table
    ensures id != 0
    ensures var q := s.race.table[id]; var r := Step(c, Step(c, s, Respond(id, obj)), Settle(|s.race.claims|)).race;
      id !in r.table && r.verdicts == s.race.verdicts[q := Some(Fulfilled(obj))]
  {
    EntriesInRuns(c, clock, acts, id);
    RaceInRuns(c, clock, acts);
    ResponseEffect(c, s, id, obj);
  }

  /** A timeout is never early: whoever is told UPSTREAM_TIMEOUT was swept at or after the deadline. */
  lemma TimeoutNeverEarly(c: Config, clock: int, acts: seq<Action>, q: Request, at: int)
    requires var r := Run(c, Start(clock), acts).race; q in r.verdicts && r.verdicts[q] == Some(TimedOut(at))
    ensures q.deadline <= at
  {
    InvAtStart(c, clock);
    RunKeepsInv(c, Start(clock), acts);
    var r := Run(c, Start(clock), acts).race;
    OnePlaceEach(r, q);
    var i: nat :| OnlyClaim(r, q, i);
    assert r.claims[i].verdict == TimedOut(at);
  }

  function Max(a: int, b: int): int {
    if a >= b then a else b
  }

  /** An iteration of the receive loop may take place at `now`, sweeping in this order if it is time to. */
  predicate MayReceive(c: Config, s: State, now: int, order: seq<nat>) {
    && s.lastSweep <= now <= s.clock
    && (now - s.lastSweep >= c.interval ==> ExpiredOrder(s.race.table, now, order))
  }

  lemma LatenessOf(c: Config, s: State, now: int, order: seq<nat>, k: nat)
    requires TimesOk(c, s) && MayReceive(c, s, now, order)
    requires k in Step(c, s, Receive(now, order)).race.table
    ensures k in s.race.table
    ensures var q := s.race.table[k];
      Step(c, s, Receive(now, order)).race.table[k] == q
      && if now - s.lastSweep >= c.interval then q.deadline > now
         else q.deadline > s.lastSweep || q.insertedAt >= s.lastSweep
  {
    if now - s.lastSweep >= c.interval {
      SweepLeaves(s, now, order);
    }
  }

  lemma TimesInRuns(c: Config, clock: int, acts: seq<Action>)
    ensures TimesOk(c, Run(c, Start(clock), acts))
  {
    InvAtStart(c, clock);
    RunKeepsInv(c, Start(clock), acts);
  }

  /**
   * Lateness bound, in every state s a run leads to: after a receive-loop iteration at `now`, each entry
   * still in the map has its deadline, or its insertion, later than now - sweep_interval.
   */
  lemma SweepLatenessBound(c: Config, clock: int, acts: seq<Action>, s: State, now: int, order: seq<nat>, k: nat)
    requires s == Run(c, Start(clock), acts) && MayReceive(c, s, now, order) && c.interval >= 0
    requires k in Step(c, s, Receive(now, order)).race.table
    ensures var q := Step(c, s, Receive(now, order)).race.table[k];
      Max(q.deadline, q.insertedAt) > now - c.interval
  {
    TimesInRuns(c, clock, acts);
    LatenessOf(c, s, now, order, k);
  }

  /** With the deadline read at the time of insertion and a positive TTL, that is a bound on the deadline itself. */
  lemma SweepLatenessAtomic(c: Config, clock: int, acts: seq<Action>, s: State, now: int, order: seq<nat>, k: nat)
    requires s == Run(c, Start(clock), acts) && MayReceive(c, s, now, order) && c.interval >= 0 && c.ttl > 0
    requires k in Step(c, s, Receive(now, order)).race.table
    requires var q := Step(c, s, Receive(now, order)).race.table[k]; q.deadline == q.insertedAt + c.ttl
    ensures Step(c, s, Receive(now, order)).race.table[k].deadline > now - c.interval
  {
    SweepLatenessBound(c, clock, acts, s, now, order, k);
  }
}
