/**
 * The tracker's table and the shared state of its waits, in place (src/bridge/message_send_tracker.cpp),
 * each method beside the steps of the system it is.
 */
module SendTrackerObjects {
  import opened Options
  import opened ClaimRace
  import opened SendTracker

  class SendWaitState {
    var resolved: bool
    var result: Option<int>

    constructor ()
      ensures !resolved && result == None
    {
      resolved, result := false, None;
    }

    /** What the state of a wait with this verdict, or none yet, holds. */
    predicate Holds(v: Option<Verdict>)
      reads this
    {
      resolved == v.Some? && result == if v.Some? then ResultOf(v.value) else None
    }
  }

  function Step3(s: State, a: SendTracker.Action, b: SendTracker.Action, c: SendTracker.Action): State {
    SendTracker.Step(SendTracker.Step(SendTracker.Step(s, a), b), c)
  }

  /** The state object of every wait the race knows; one object each. */
  ghost predicate OneEach(s: State, nodes: map<nat, SendWaitState>) {
    && nodes.Keys == s.race.verdicts.Keys
    && (forall w, u | w in nodes && u in nodes && w != u :: nodes[w] != nodes[u])
  }

  class MessageSendTracker {
    var waiting: map<int, SendWaitState>

    ghost predicate TableShows(s: State, nodes: map<nat, SendWaitState>)
      reads this
    {
      && waiting.Keys == s.race.table.Keys
      && (forall id | id in s.race.table :: s.race.table[id] in nodes && waiting[id] == nodes[s.race.table[id]])
    }

    ghost predicate Shows(s: State, nodes: map<nat, SendWaitState>)
      reads this, nodes.Values
    {
      && OneEach(s, nodes) && TableShows(s, nodes)
      && (forall w | w in nodes :: nodes[w].Holds(s.race.verdicts[w]))
    }

    constructor ()
      ensures waiting == map[] && Shows(Start(), map[])
    {
      waiting := map[];
    }

    /** emplace: never replaces a wait already registered under the id. */
    method TryInsert(id: int, w: SendWaitState) returns (ok: bool)
      modifies this
      ensures ok <==> id !in old(waiting)
      ensures waiting == if ok then old(waiting)[id := w] else old(waiting)
    {
      ok := id !in waiting;
      if ok {
        waiting := waiting[id := w];
      }
    }

    method Claim(id: int) returns (w: Option<SendWaitState>)
      modifies this
      ensures w == if id in old(waiting) then Some(old(waiting)[id]) else None
      ensures waiting == old(waiting) - {id}
    {
      w := None;
      if id in waiting {
        w := Some(waiting[id]);
        waiting := waiting - {id};
      } else {
        assert waiting - {id} == waiting;
      }
    }

    /** await_suspend up to its timer: a new state object, registered unless its id is waited for already. */
    method StartWait(ghost s: State, ghost nodes: map<nat, SendWaitState>, id: int)
      returns (ok: bool, w: SendWaitState, ghost after: map<nat, SendWaitState>)
      requires Shows(s, nodes) && s.waits + 1 !in s.race.verdicts
      modifies this
      ensures Shows(SendTracker.Step(s, Register(id)), after)
      ensures ok <==> s.waits + 1 in SendTracker.Step(s, Register(id)).race.verdicts
      ensures ok ==> after == nodes[s.waits + 1 := w]
    {
      w := new SendWaitState();
      ok := TryInsert(id, w);
      after := if ok then nodes[s.waits + 1 := w] else nodes;
    }

    /** The rest of await_suspend: the table and the waits know nothing of timers. */
    lemma TimerSet(s: State, nodes: map<nat, SendWaitState>, w: nat)
      requires Shows(s, nodes)
      ensures Shows(SendTracker.Step(s, SetTimer(w)), nodes)
    {
    }

    /** The second guard: only a wait nobody decided takes the outcome. */
    static method Decide(w: SendWaitState, ghost v: Verdict, outcome: Option<int>) returns (resume: bool)
      requires outcome == ResultOf(v)
      modifies w
      ensures resume <==> !old(w.resolved)
      ensures old(w.Holds(None)) ==> resume && w.Holds(Some(v))
      ensures !resume ==> w.resolved && w.result == old(w.result)
    {
      if w.resolved {
        return false;
      }
      w.resolved := true;
      if outcome.Some? {
        w.result := outcome;
      }
      resume := true;
    }

    /** Takes the wait out and decides it, unless nobody waits; `resume` says whether to wake it. */
    method TakeAndDecide(ghost s: State, ghost nodes: map<nat, SendWaitState>, id: int, ghost v: Verdict,
        outcome: Option<int>, ghost running: bool)
      returns (resume: bool)
      requires Shows(s, nodes) && TableOk(s.race) && ClaimsOk(s.race) && outcome == ResultOf(v)
      modifies this, nodes.Values
      ensures Shows(s.(race := Decided(s.race, id, v, running)), nodes)
      ensures resume <==> id in s.race.table
    {
      DecidedEffect(s.race, id, v, running);
      var w := Claim(id);
      if w.None? {
        return false;
      }
      resume := Decide(w.value, v, outcome);
    }

    /** resolveWith: the wait's claim, its decision and its waking, which other threads may separate. */
    method ResolveWait(ghost s: State, ghost nodes: map<nat, SendWaitState>, id: int, outcome: int, ghost running: bool)
      returns (resume: bool)
      requires Shows(s, nodes) && TableOk(s.race) && ClaimsOk(s.race)
      modifies this, nodes.Values
      ensures var n := |s.race.claims|;
        Shows(Step3(s, ResolveWith(id, outcome), Settle(n), SendTracker.Action.Wake(n, running)), nodes)
      ensures resume <==> id in s.race.table
    {
      resume := TakeAndDecide(s, nodes, id, Resolved(outcome), Some(outcome), running);
    }

    /** The timer's callback: the same with no outcome, for whoever waits for the timer's id, resumed at once. */
    method TimerCallback(ghost s: State, ghost nodes: map<nat, SendWaitState>, ghost w: nat, id: int)
      returns (resume: bool)
      requires Shows(s, nodes) && TableOk(s.race) && ClaimsOk(s.race) && w in s.timers && s.timers[w] == id
      modifies this, nodes.Values
      ensures var n := |s.race.claims|;
        Shows(Step3(s, TimerFires(w), Settle(n), SendTracker.Action.Wake(n, false)), nodes)
      ensures resume <==> id in s.race.table
    {
      resume := TakeAndDecide(s, nodes, id, TimedOut(w), None, false);
    }

    /** The keys in the order the table is walked. */
    static method Walk(drained: map<int, SendWaitState>) returns (order: seq<int>, ws: seq<SendWaitState>)
      ensures forall id :: id in order <==> id in drained
      ensures forall i, j | 0 <= i < j < |order| :: order[i] != order[j]
      ensures |ws| == |order| && forall i | 0 <= i < |ws| :: order[i] in drained && ws[i] == drained[order[i]]
    {
      order, ws := [], [];
      var rest: set<int> := drained.Keys;
      while exists id :: id in rest
        invariant rest <= drained.Keys
        invariant forall id :: id in order <==> id in drained.Keys - rest
        invariant forall i, j | 0 <= i < j < |order| :: order[i] != order[j]
        invariant |ws| == |order| && forall i | 0 <= i < |ws| :: order[i] in drained && ws[i] == drained[order[i]]
        decreases rest
      {
        var id :| id in rest;
        assert id !in order;
        order, ws := order + [id], ws + [drained[id]];
        rest := rest - {id};
      }
    }

    /** The loop of drainAll: each wait is decided without a result and woken. */
    static method DecideEach(ws: seq<SendWaitState>) returns (woken: seq<SendWaitState>)
      requires forall i, j | 0 <= i < j < |ws| :: ws[i] != ws[j]
      requires forall i | 0 <= i < |ws| :: ws[i].Holds(None)
      modifies ws
      ensures forall i | 0 <= i < |ws| :: ws[i].Holds(Some(Drained))
      ensures woken == ws
    {
      woken := [];
      for i := 0 to |ws|
        invariant woken == ws[..i]
        invariant forall j | 0 <= j < i :: ws[j].Holds(Some(Drained))
        invariant forall j | i <= j < |ws| :: ws[j].Holds(None)
      {
        var resume := Decide(ws[i], Drained, None);
        if resume {
          woken := woken + [ws[i]];
        }
      }
    }

    ghost function Waits(): set<SendWaitState>
      reads this
    {
      set k | k in waiting :: waiting[k]
    }

    /** What drainAll finds in the table: distinct waits that nobody decided. */
    ghost predicate Pending()
      reads this, Waits()
    {
      && (forall k | k in waiting :: waiting[k].Holds(None))
      && (forall k, l | k in waiting && l in waiting && k != l :: waiting[k] != waiting[l])
    }

    lemma ShownIsPending(s: State, nodes: map<nat, SendWaitState>)
      requires Shows(s, nodes) && TableOk(s.race)
      ensures Waits() <= nodes.Values && Pending()
    {
      forall w | w in Waits() ensures w in nodes.Values {
        var k :| k in waiting && waiting[k] == w;
        assert s.race.table[k] in nodes;
      }
      forall k | k in waiting ensures waiting[k].Holds(None) {
        assert k in s.race.table.Keys;
      }
      forall k, l | k in waiting && l in waiting && k != l ensures waiting[k] != waiting[l] {
        assert k in s.race.table.Keys && l in s.race.table.Keys;
      }
    }

    /** drainAll: swaps the whole table out, then decides what was in it without a result. */
    method SwapAndDecide() returns (order: seq<int>, woken: seq<SendWaitState>)
      requires Pending()
      modifies this, Waits()
      ensures waiting == map[]
      ensures forall k | k in old(waiting) :: old(waiting)[k].Holds(Some(Drained))
      ensures forall k :: k in order <==> k in old(waiting)
      ensures forall i, j | 0 <= i < j < |order| :: order[i] != order[j]
      ensures |woken| == |order| && forall i | 0 <= i < |order| ::
        order[i] in old(waiting) && woken[i] == old(waiting)[order[i]]
    {
      var drained := waiting;
      assert forall k | k in drained :: drained[k].Holds(None);
      waiting := map[];
      assert forall k | k in drained :: drained[k].Holds(None);
      var ws;
      order, ws := Walk(drained);
      forall i | 0 <= i < |ws| ensures ws[i].Holds(None) {
        assert order[i] in drained;
      }
      woken := DecideEach(ws);
      forall k | k in drained ensures drained[k].Holds(Some(Drained)) {
        var i :| 0 <= i < |order| && order[i] == k;
        assert ws[i] == drained[k];
      }
    }

    /** The same beside the system: the whole table claimed and every claim settled. */
    method DrainAllWaits(ghost s: State, ghost nodes: map<nat, SendWaitState>, ghost running: nat -> bool)
      returns (order: seq<int>, woken: seq<SendWaitState>)
      requires Shows(s, nodes) && TableOk(s.race) && ClaimsOk(s.race)
      modifies this, nodes.Values
      ensures Shows(s.(race := AllDrained(s.race, order, running)), nodes)
      ensures (set k | k in order) == s.race.table.Keys
      ensures SendTracker.Step(s, DrainAll(order)).race == ClaimAll(s.race, order, Drained)
      ensures |woken| == |order| && forall i | 0 <= i < |order| ::
        order[i] in old(waiting) && woken[i] == old(waiting)[order[i]]
    {
      ShownIsPending(s, nodes);
      ghost var drained := waiting;
      order, woken := SwapAndDecide();
      AllDrainedEffect(s.race, order, running);
      OrderIsTable(s, order);
      forall w | w in nodes ensures nodes[w].Holds(AllDrained(s.race, order, running).verdicts[w]) {
        if Registered(s.race, w) {
          var k :| k in s.race.table && s.race.table[k] == w;
          assert k in drained && drained[k] == nodes[w];
        } else {
          NotInTable(s, nodes, drained, w);
        }
      }
    }
  }

  lemma OrderIsTable(s: State, order: seq<int>)
    requires forall k :: k in order <==> k in s.race.table
    ensures (set k | k in order) == s.race.table.Keys
    ensures SendTracker.Step(s, DrainAll(order)).race == ClaimAll(s.race, order, Drained)
  {
    var visited := set k | k in order;
    forall k ensures k in visited <==> k in s.race.table.Keys {
      assert k in order <==> k in s.race.table;
    }
    DrainTakesAll(s, order);
  }

  /** The object of a wait that is not registered is not in the table. */
  lemma NotInTable(s: State, nodes: map<nat, SendWaitState>, waiting: map<int, SendWaitState>, w: nat)
    requires OneEach(s, nodes) && w in nodes && !Registered(s.race, w) && waiting.Keys == s.race.table.Keys
    requires forall k | k in s.race.table :: s.race.table[k] in nodes && waiting[k] == nodes[s.race.table[k]]
    ensures forall k | k in waiting :: waiting[k] != nodes[w]
  {
    forall k | k in waiting ensures waiting[k] != nodes[w] {
      assert k in s.race.table.Keys && s.race.table[k] != w;
    }
  }

  /** The whole table claimed for the drain and every claim settled. */
  function AllDrained(r: Race<int, nat, Verdict>, order: seq<int>, running: nat -> bool): Race<int, nat, Verdict> {
    SettleFrom(ClaimAll(r, order, Drained), |r.claims|, |order|, running)
  }

  /** The whole table claimed: the new claims, in hand, are those of the registered waits, in order. */
  ghost predicate AllClaimed(r: Race<int, nat, Verdict>, order: seq<int>, d: Race<int, nat, Verdict>) {
    && d.table == map[] && d.verdicts == r.verdicts && |d.claims| == |r.claims| + |order|
    && (forall j: nat | |r.claims| <= j < |d.claims| :: j in d.hands)
    && (forall i | 0 <= i < |order| :: ClaimOf(r, order, d, i))
  }

  predicate ClaimOf(r: Race<int, nat, Verdict>, order: seq<int>, d: Race<int, nat, Verdict>, i: nat)
    requires i < |order| && |d.claims| == |r.claims| + |order|
  {
    order[i] in r.table && d.claims[|r.claims| + i] == Ticket(r.table[order[i]], Drained)
  }

  lemma ClaimedWhole(r: Race<int, nat, Verdict>, order: seq<int>)
    requires TableOk(r) && ClaimsOk(r) && forall i, j | 0 <= i < j < |order| :: order[i] != order[j]
    requires forall k :: k in order <==> k in r.table
    ensures var d := ClaimAll(r, order, Drained); ClaimsOk(d) && AllClaimed(r, order, d)
  {
    forall k ensures k in order <==> k in r.table {}
    TakeAllOutState(r, order, Drained);
    TakeAllOutTickets(r, order, Drained);
    forall i | 0 <= i < |order| ensures ClaimOf(r, order, ClaimAll(r, order, Drained), i) {
      assert order[i] in order;
    }
  }

  lemma DrainedOne(r: Race<int, nat, Verdict>, order: seq<int>, d: Race<int, nat, Verdict>, running: nat -> bool,
      i: nat)
    requires ClaimsOk(d) && AllClaimed(r, order, d) && i < |order|
    ensures order[i] in r.table
    ensures var n := SettleFrom(d, |r.claims|, |order|, running); var w := r.table[order[i]];
      w in n.verdicts && n.verdicts[w] == Some(Drained)
  {
    assert ClaimOf(r, order, d, i);
    FirstOfItsNode(d, |r.claims|, |r.claims| + i);
    SettleFromDecides(d, |r.claims|, |order|, running, |r.claims| + i);
  }

  lemma NotDrained(r: Race<int, nat, Verdict>, order: seq<int>, d: Race<int, nat, Verdict>, running: nat -> bool,
      w: nat)
    requires AllClaimed(r, order, d) && w in r.verdicts && !Registered(r, w)
    ensures var n := SettleFrom(d, |r.claims|, |order|, running); w in n.verdicts && n.verdicts[w] == r.verdicts[w]
  {
    forall j: nat | |r.claims| <= j < |d.claims| ensures d.claims[j].node != w {
      assert ClaimOf(r, order, d, j - |r.claims|);
    }
    SettleFromOthers(d, |r.claims|, |order|, running, w);
  }

  /** Then the table is empty, whoever was in it has no result, and nobody else is touched. */
  lemma AllDrainedEffect(r: Race<int, nat, Verdict>, order: seq<int>, running: nat -> bool)
    requires TableOk(r) && ClaimsOk(r) && forall i, j | 0 <= i < j < |order| :: order[i] != order[j]
    requires forall k :: k in order <==> k in r.table
    ensures var n := AllDrained(r, order, running);
      && n.table == map[] && n.verdicts.Keys == r.verdicts.Keys
      && (forall id | id in r.table :: r.table[id] in n.verdicts && n.verdicts[r.table[id]] == Some(Drained))
      && (forall w | w in r.verdicts && !Registered(r, w) :: n.verdicts[w] == r.verdicts[w])
  {
    var d, n := ClaimAll(r, order, Drained), AllDrained(r, order, running);
    ClaimedWhole(r, order);
    SettleFromKeeps(d, |r.claims|, |order|, running);
    forall id | id in r.table ensures r.table[id] in n.verdicts && n.verdicts[r.table[id]] == Some(Drained) {
      var i :| 0 <= i < |order| && order[i] == id;
      DrainedOne(r, order, d, running, i);
    }
    forall w | w in r.verdicts && !Registered(r, w) ensures n.verdicts[w] == r.verdicts[w] {
      NotDrained(r, order, d, running, w);
    }
  }

  /** One key claimed with a verdict and the claim settled. */
  function Decided(r: Race<int, nat, Verdict>, id: int, v: Verdict, running: bool): Race<int, nat, Verdict> {
    Settled(ClaimRace.Step(r, ClaimRace.Action.Claim([id], v)), |r.claims|, running)
  }

  lemma DecidedEffect(r: Race<int, nat, Verdict>, id: int, v: Verdict, running: bool)
    requires TableOk(r) && ClaimsOk(r)
    ensures var n := Decided(r, id, v, running);
      && n.table == r.table - {id}
      && n.verdicts == if id in r.table then r.verdicts[r.table[id] := Some(v)] else r.verdicts
    ensures id in r.table ==> r.table[id] in r.verdicts && r.verdicts[r.table[id]].None?
  {
    if id in r.table {
      ClaimThenResolve(r, id, v);
    } else {
      ClaimSingle(r, id, v);
      assert r.table - {id} == r.table;
      assert |r.claims| !in r.hands;
    }
  }
}
