/**
 * The registry of WebSocket subscribers with its back-pressure (src/ws/ws_registry.cpp). Each connection
 * object is registered once; a fan-out's sends and forced closes, which follow its mutex section, are in
 * its step.
 */
module WsRegistry {
  import opened Options

  const WORD: nat := 0x1_0000_0000_0000_0000

  type ConnId = nat

  datatype Subscriber = Subscriber(conn: ConnId, bytes: nat, filter: set<string>)

  datatype Traffic = Sent(payload: string) | Ponged

  /** A connection as its peer sees it. */
  datatype Link = Link(connected: bool, traffic: seq<Traffic>)

  datatype Registry = Registry(subs: seq<Subscriber>, links: map<ConnId, Link>)

  datatype Action =
    | Connect(conn: ConnId)
    | LinkLost(conn: ConnId)
    | Disconnect(conn: ConnId)
    | Pong(conn: ConnId)
    | SetFilter(conn: ConnId, types: set<string>)
    | FanOut(updateType: string, payload: string)

  predicate Distinct(subs: seq<Subscriber>) {
    forall i, j | 0 <= i < j < |subs| :: subs[i].conn != subs[j].conn
  }

  /** An empty filter passes every type. */
  predicate Passes(s: Subscriber, t: string) {
    s.filter == {} || t in s.filter
  }

  predicate Hit(s: Subscriber, links: map<ConnId, Link>, t: string) {
    s.conn in links && links[s.conn].connected && Passes(s, t)
  }

  /** uint64 addition. */
  function Charge(s: Subscriber, payload: string): Subscriber {
    s.(bytes := (s.bytes + |payload|) % WORD)
  }

  /** A limit of 0 switches back-pressure off. */
  predicate TooSlow(s: Subscriber, payload: string, limit: nat) {
    limit != 0 && Charge(s, payload).bytes > limit
  }

  function Find(subs: seq<Subscriber>, c: ConnId): Option<Subscriber> {
    if subs == [] then None else if subs[0].conn == c then Some(subs[0]) else Find(subs[1..], c)
  }

  function Removed(subs: seq<Subscriber>, cs: set<ConnId>): seq<Subscriber> {
    if subs == [] then [] else (if subs[0].conn in cs then [] else [subs[0]]) + Removed(subs[1..], cs)
  }

  datatype Change = Reset | NewFilter(types: set<string>)

  function Applied(s: Subscriber, ch: Change): Subscriber {
    match ch
    case Reset => s.(bytes := 0)
    case NewFilter(types) => s.(filter := types)
  }

  /** The first subscriber of c, changed. */
  function Changed(subs: seq<Subscriber>, c: ConnId, ch: Change): seq<Subscriber> {
    if subs == [] then []
    else if subs[0].conn == c then [Applied(subs[0], ch)] + subs[1..] else [subs[0]] + Changed(subs[1..], c, ch)
  }

  /** The subscribers a fan-out hits are charged, and leave if that is too much. */
  function Survivors(subs: seq<Subscriber>, links: map<ConnId, Link>, limit: nat, t: string,
      payload: string): seq<Subscriber> {
    if subs == [] then []
    else
      var s := subs[0];
      (if !Hit(s, links, t) then [s] else if TooSlow(s, payload, limit) then [] else [Charge(s, payload)])
      + Survivors(subs[1..], links, limit, t, payload)
  }

  function LinkAfter(l: Link, s: Option<Subscriber>, links: map<ConnId, Link>, limit: nat, t: string,
      payload: string): Link {
    if s.None? || !Hit(s.value, links, t) then l
    else if TooSlow(s.value, payload, limit) then l.(connected := false)
    else l.(traffic := l.traffic + [Sent(payload)])
  }

  function FanOutAll(r: Registry, limit: nat, t: string, payload: string): Registry {
    Registry(
      Survivors(r.subs, r.links, limit, t, payload),
      map c | c in r.links :: LinkAfter(r.links[c], Find(r.subs, c), r.links, limit, t, payload))
  }

  function Step(r: Registry, a: Action, limit: nat): Registry {
    match a
    case Connect(c) =>
      if c in r.links then r else Registry(r.subs + [Subscriber(c, 0, {})], r.links[c := Link(true, [])])
    case LinkLost(c) => if c in r.links then r.(links := r.links[c := r.links[c].(connected := false)]) else r
    case Disconnect(c) => r.(subs := Removed(r.subs, {c}))
    case Pong(c) =>
      if Find(r.subs, c).Some? && c in r.links then
        Registry(Changed(r.subs, c, Reset), r.links[c := r.links[c].(traffic := r.links[c].traffic + [Ponged])])
      else r
    case SetFilter(c, types) => r.(subs := Changed(r.subs, c, NewFilter(types)))
    case FanOut(t, p) => FanOutAll(r, limit, t, p)
  }

  function Run(r: Registry, acts: seq<Action>, limit: nat): Registry
    decreases |acts|
  {
    if acts == [] then r else Run(Step(r, acts[0], limit), acts[1..], limit)
  }

  predicate Valid(r: Registry) {
    Distinct(r.subs) && forall i | 0 <= i < |r.subs| :: r.subs[i].conn in r.links
  }

  // ------------------------------------------------------------------ one connection on its own

  /** What the registry and the peer know of one connection; None before it connects. */
  datatype View = View(sub: Option<Subscriber>, link: Option<Link>)

  function Of(r: Registry, c: ConnId): View {
    View(Find(r.subs, c), if c in r.links then Some(r.links[c]) else None)
  }

  /** The connection's own course, with no other connection in sight. */
  function Own(v: View, c: ConnId, a: Action, limit: nat): View {
    match a
    case Connect(d) => if d == c && v.link.None? then View(Some(Subscriber(c, 0, {})), Some(Link(true, []))) else v
    case LinkLost(d) => if d == c && v.link.Some? then v.(link := Some(v.link.value.(connected := false))) else v
    case Disconnect(d) => if d == c then v.(sub := None) else v
    case Pong(d) =>
      if d == c && v.sub.Some? && v.link.Some? then
        View(Some(v.sub.value.(bytes := 0)), Some(v.link.value.(traffic := v.link.value.traffic + [Ponged])))
      else v
    case SetFilter(d, types) => if d == c && v.sub.Some? then v.(sub := Some(v.sub.value.(filter := types))) else v
    case FanOut(t, p) =>
      if v.sub.None? || v.link.None? || !v.link.value.connected || !Passes(v.sub.value, t) then v
      else if TooSlow(v.sub.value, p, limit) then View(None, Some(v.link.value.(connected := false)))
      else View(Some(Charge(v.sub.value, p)), Some(v.link.value.(traffic := v.link.value.traffic + [Sent(p)])))
  }

  function OwnRun(v: View, c: ConnId, acts: seq<Action>, limit: nat): View
    decreases |acts|
  {
    if acts == [] then v else OwnRun(Own(v, c, acts[0], limit), c, acts[1..], limit)
  }

  // ------------------------------------------------------------------ the registry refines the connections

  lemma DistinctTail(subs: seq<Subscriber>)
    requires subs != [] && Distinct(subs)
    ensures Distinct(subs[1..]) && Find(subs[1..], subs[0].conn) == None
  {
    var rest := subs[1..];
    assert forall i | 0 <= i < |rest| :: rest[i] == subs[i + 1];
    NotFound(rest, subs[0].conn);
  }

  lemma {:induction false} NotFound(subs: seq<Subscriber>, c: ConnId)
    requires forall i | 0 <= i < |subs| :: subs[i].conn != c
    ensures Find(subs, c) == None
    decreases |subs|
  {
    if subs != [] {
      NotFound(subs[1..], c);
    }
  }

  lemma {:induction false} FindsMember(subs: seq<Subscriber>, i: nat)
    requires Distinct(subs) && i < |subs|
    ensures Find(subs, subs[i].conn) == Some(subs[i])
    decreases |subs|
  {
    if i > 0 {
      DistinctTail(subs);
      FindsMember(subs[1..], i - 1);
    }
  }

  lemma {:induction false} FindAppend(subs: seq<Subscriber>, s: Subscriber, c: ConnId)
    ensures Find(subs + [s], c) == if Find(subs, c).Some? then Find(subs, c) else if s.conn == c then Some(s) else None
    decreases |subs|
  {
    if subs != [] {
      assert (subs + [s])[0] == subs[0] && (subs + [s])[1..] == subs[1..] + [s];
      FindAppend(subs[1..], s, c);
    } else {
      assert subs + [s] == [s];
    }
  }

  lemma {:induction false} RemovedFind(subs: seq<Subscriber>, cs: set<ConnId>, c: ConnId)
    ensures Find(Removed(subs, cs), c) == if c in cs then None else Find(subs, c)
    decreases |subs|
  {
    if subs != [] {
      RemovedFind(subs[1..], cs, c);
      assert Removed(subs, cs) ==
        if subs[0].conn in cs then Removed(subs[1..], cs) else [subs[0]] + Removed(subs[1..], cs);
      assert subs[0].conn !in cs ==> Removed(subs, cs)[1..] == Removed(subs[1..], cs);
    }
  }

  lemma {:induction false} ChangedFind(subs: seq<Subscriber>, d: ConnId, ch: Change, c: ConnId)
    ensures Find(Changed(subs, d, ch), c) ==
      if c == d && Find(subs, c).Some? then Some(Applied(Find(subs, c).value, ch)) else Find(subs, c)
    decreases |subs|
  {
    if subs != [] {
      if subs[0].conn == d {
        assert Changed(subs, d, ch)[1..] == subs[1..];
      } else {
        ChangedFind(subs[1..], d, ch, c);
        assert Changed(subs, d, ch)[1..] == Changed(subs[1..], d, ch);
      }
    }
  }

  lemma {:induction false} SurvivorsFind(subs: seq<Subscriber>, links: map<ConnId, Link>, limit: nat, t: string,
      p: string, c: ConnId)
    requires Distinct(subs)
    ensures Find(Survivors(subs, links, limit, t, p), c) ==
      match Find(subs, c)
      case None => None
      case Some(s) => if !Hit(s, links, t) then Some(s) else if TooSlow(s, p, limit) then None else Some(Charge(s, p))
    decreases |subs|
  {
    if subs != [] {
      DistinctTail(subs);
      SurvivorsFind(subs[1..], links, limit, t, p, c);
      var rest := Survivors(subs[1..], links, limit, t, p);
      assert [] + rest == rest;
      assert Hit(subs[0], links, t) && !TooSlow(subs[0], p, limit) ==> ([Charge(subs[0], p)] + rest)[1..] == rest;
      assert !Hit(subs[0], links, t) ==> ([subs[0]] + rest)[1..] == rest;
    }
  }

  /** A list of connections every one of which is found once. */
  ghost predicate Members(subs: seq<Subscriber>, part: seq<Subscriber>) {
    Distinct(part) && forall i | 0 <= i < |part| :: Find(subs, part[i].conn).Some?
  }

  lemma {:induction false} RemovedMembers(subs: seq<Subscriber>, cs: set<ConnId>)
    requires Distinct(subs)
    ensures Members(subs, Removed(subs, cs))
    decreases |subs|
  {
    if subs != [] {
      DistinctTail(subs);
      RemovedMembers(subs[1..], cs);
      ConsMembers(subs, Removed(subs[1..], cs), subs[0]);
    }
  }

  /** Putting a changed first subscriber back, or leaving it out, keeps the list a part of the whole. */
  lemma ConsMembers(subs: seq<Subscriber>, part: seq<Subscriber>, s: Subscriber)
    requires subs != [] && Distinct(subs) && Members(subs[1..], part) && s.conn == subs[0].conn
    ensures Members(subs, part) && Members(subs, [s] + part)
  {
    DistinctTail(subs);
    forall i | 0 <= i < |part| ensures part[i].conn != s.conn && Find(subs, part[i].conn).Some? {
      assert Find(subs[1..], part[i].conn).Some?;
    }
    var r := [s] + part;
    assert forall i | 0 < i < |r| :: r[i] == part[i - 1];
  }

  lemma {:induction false} SurvivorsMembers(subs: seq<Subscriber>, links: map<ConnId, Link>, limit: nat, t: string,
      p: string)
    requires Distinct(subs)
    ensures Members(subs, Survivors(subs, links, limit, t, p))
    decreases |subs|
  {
    if subs != [] {
      DistinctTail(subs);
      SurvivorsMembers(subs[1..], links, limit, t, p);
      var rest := Survivors(subs[1..], links, limit, t, p);
      ConsMembers(subs, rest, subs[0]);
      ConsMembers(subs, rest, Charge(subs[0], p));
    }
  }

  lemma {:induction false} ChangedConns(subs: seq<Subscriber>, c: ConnId, ch: Change)
    ensures |Changed(subs, c, ch)| == |subs|
    ensures forall i | 0 <= i < |subs| :: Changed(subs, c, ch)[i].conn == subs[i].conn
    decreases |subs|
  {
    if subs != [] && subs[0].conn != c {
      ChangedConns(subs[1..], c, ch);
    }
  }

  lemma {:induction false} FoundIsMember(subs: seq<Subscriber>, c: ConnId)
    requires Find(subs, c).Some?
    ensures exists i | 0 <= i < |subs| :: subs[i].conn == c
    decreases |subs|
  {
    if subs[0].conn != c {
      FoundIsMember(subs[1..], c);
      var i :| 0 <= i < |subs| - 1 && subs[1..][i].conn == c;
      assert subs[i + 1].conn == c;
    }
  }

  lemma PartKeepsValid(r: Registry, part: seq<Subscriber>, links: map<ConnId, Link>)
    requires Valid(r) && Members(r.subs, part) && r.links.Keys <= links.Keys
    ensures Valid(Registry(part, links))
  {
    forall i | 0 <= i < |part| ensures part[i].conn in links {
      FoundIsMember(r.subs, part[i].conn);
    }
  }

  lemma StepKeepsValid(r: Registry, a: Action, limit: nat)
    requires Valid(r)
    ensures Valid(Step(r, a, limit))
  {
    match a {
      case Disconnect(c) => RemovedMembers(r.subs, {c}); PartKeepsValid(r, Removed(r.subs, {c}), r.links);
      case Pong(c) => ChangedConns(r.subs, c, Reset);
      case SetFilter(c, types) => ChangedConns(r.subs, c, NewFilter(types));
      case FanOut(t, p) =>
        SurvivorsMembers(r.subs, r.links, limit, t, p);
        PartKeepsValid(r, Survivors(r.subs, r.links, limit, t, p), FanOutAll(r, limit, t, p).links);
      case _ =>
    }
  }

  /** One step of the registry is, for every connection, one step of its own course. */
  lemma StepIsOwn(r: Registry, a: Action, limit: nat, c: ConnId)
    requires Valid(r)
    ensures Of(Step(r, a, limit), c) == Own(Of(r, c), c, a, limit)
  {
    match a {
      case Connect(d) =>
        FindAppend(r.subs, Subscriber(d, 0, {}), c);
        if d !in r.links { NotFound(r.subs, d); }
      case Disconnect(d) => RemovedFind(r.subs, {d}, c);
      case Pong(d) => ChangedFind(r.subs, d, Reset, c); FoundIsLinked(r, d);
      case SetFilter(d, types) => ChangedFind(r.subs, d, NewFilter(types), c);
      case FanOut(t, p) => SurvivorsFind(r.subs, r.links, limit, t, p, c); FoundIsLinked(r, c);
      case _ =>
    }
  }

  lemma FoundIsLinked(r: Registry, c: ConnId)
    requires Valid(r)
    ensures Find(r.subs, c).Some? ==> c in r.links && Find(r.subs, c).value.conn == c
  {
    if Find(r.subs, c).Some? {
      FoundIsMember(r.subs, c);
      var i :| 0 <= i < |r.subs| && r.subs[i].conn == c;
      FindsMember(r.subs, i);
    }
  }

  /**
   * Over every run, every connection fares as if it were alone: it receives exactly, in order, the payloads
   * its filter passes while it is connected and registered, and it is closed and removed exactly by the
   * payload that takes it over the limit.
   */
  lemma {:induction false} EveryConnectionOnItsOwn(r: Registry, acts: seq<Action>, limit: nat, c: ConnId)
    requires Valid(r)
    ensures Valid(Run(r, acts, limit)) && Of(Run(r, acts, limit), c) == OwnRun(Of(r, c), c, acts, limit)
    decreases |acts|
  {
    if acts != [] {
      StepKeepsValid(r, acts[0], limit);
      StepIsOwn(r, acts[0], limit, c);
      EveryConnectionOnItsOwn(Step(r, acts[0], limit), acts[1..], limit, c);
    }
  }

  // ------------------------------------------------------------------ the counter

  /** The bytes sent since the last pong. */
  function Backlog(traffic: seq<Traffic>): nat
    decreases |traffic|
  {
    if traffic == [] then 0
    else
      match traffic[|traffic| - 1]
      case Ponged => 0
      case Sent(p) => Backlog(traffic[..|traffic| - 1]) + |p|
  }

  /** No payload is so long that the 64-bit counter could wrap. */
  predicate Fits(acts: seq<Action>, limit: nat) {
    forall a | a in acts && a.FanOut? :: limit + |a.payload| < WORD
  }

  predicate Counted(v: View, limit: nat) {
    && (v.sub.Some? ==> v.link.Some? && v.sub.value.bytes == Backlog(v.link.value.traffic) <= limit)
    && (v.link.Some? ==> Backlog(v.link.value.traffic) <= limit)
  }

  lemma OwnKeepsCounted(v: View, c: ConnId, a: Action, limit: nat)
    requires Counted(v, limit) && limit > 0 && Fits([a], limit)
    ensures Counted(Own(v, c, a, limit), limit)
  {
    if v.link.Some? {
      var traffic := v.link.value.traffic;
      assert (traffic + [Ponged])[|traffic|] == Ponged;
      if a.FanOut? {
        assert a in [a];
        assert (traffic + [Sent(a.payload)])[..|traffic|] == traffic;
      }
    }
  }

  lemma {:induction false} OwnRunKeepsCounted(v: View, c: ConnId, acts: seq<Action>, limit: nat)
    requires Counted(v, limit) && limit > 0 && Fits(acts, limit)
    ensures Counted(OwnRun(v, c, acts, limit), limit)
    decreases |acts|
  {
    if acts != [] {
      assert acts[0] in acts;
      OwnKeepsCounted(v, c, acts[0], limit);
      OwnRunKeepsCounted(Own(v, c, acts[0], limit), c, acts[1..], limit);
    }
  }

  /**
   * In every run under a fixed limit, the counter of every registered subscriber is the number of bytes
   * sent to it since its last pong, and no peer ever has more than the limit outstanding.
   */
  lemma CounterIsBacklog(acts: seq<Action>, limit: nat, c: ConnId)
    requires limit > 0 && Fits(acts, limit)
    ensures var v := Of(Run(Registry([], map[]), acts, limit), c);
      && (v.sub.Some? ==> v.link.Some? && v.sub.value.bytes == Backlog(v.link.value.traffic))
      && (v.link.Some? ==> Backlog(v.link.value.traffic) <= limit)
  {
    var r := Registry([], map[]);
    EveryConnectionOnItsOwn(r, acts, limit, c);
    OwnRunKeepsCounted(Of(r, c), c, acts, limit);
  }

  // ------------------------------------------------------------------ what a peer gets, from the history alone

  /** What happened after the connection joined. */
  function Life(acts: seq<Action>, c: ConnId): seq<Action>
    decreases |acts|
  {
    if acts == [] then [] else if acts[0] == Connect(c) then acts[1..] else Life(acts[1..], c)
  }

  /** The filter it asked for last; none at first. */
  function FilterOf(life: seq<Action>, c: ConnId): set<string>
    decreases |life|
  {
    if life == [] then {}
    else
      var a := life[|life| - 1];
      if a.SetFilter? && a.conn == c then a.types else FilterOf(life[..|life| - 1], c)
  }

  /** An update of type t reaches the peer: nobody left, lost or cut the connection, and its filter lets t pass. */
  predicate Reaches(life: seq<Action>, limit: nat, c: ConnId, t: string)
    decreases |life|, 1
  {
    && Disconnect(c) !in life && LinkLost(c) !in life && !Cut(life, limit, c)
    && (FilterOf(life, c) == {} || t in FilterOf(life, c))
  }

  /** The payload would leave more than the limit unanswered; a limit of 0 is none. */
  predicate TooMuch(traffic: seq<Traffic>, p: string, limit: nat) {
    limit != 0 && Backlog(traffic) + |p| > limit
  }

  /** Some update that reached the peer was too much. */
  predicate Cut(life: seq<Action>, limit: nat, c: ConnId)
    decreases |life|, 0
  {
    life != [] &&
    var front, a := life[..|life| - 1], life[|life| - 1];
    Cut(front, limit, c)
    || (a.FanOut? && Reaches(front, limit, c, a.updateType) && TooMuch(Course(front, limit, c), a.payload, limit))
  }

  /** The payloads that reached the peer and were not too much, in order, and its pongs while it was registered. */
  function Course(life: seq<Action>, limit: nat, c: ConnId): seq<Traffic>
    decreases |life|, 0
  {
    if life == [] then []
    else
      var front, a := life[..|life| - 1], life[|life| - 1];
      Course(front, limit, c) + match a
        case FanOut(t, p) =>
          if Reaches(front, limit, c, t) && !TooMuch(Course(front, limit, c), p, limit) then [Sent(p)] else []
        case Pong(d) => if d == c && Disconnect(c) !in front && !Cut(front, limit, c) then [Ponged] else []
        case _ => []
  }

  /** The connection as the registry and its peer have it is the one its history tells. */
  predicate Told(v: View, life: seq<Action>, limit: nat, c: ConnId)
    requires v.link.Some?
  {
    && v.link.value.traffic == Course(life, limit, c)
    && (v.link.value.connected <==> LinkLost(c) !in life && !Cut(life, limit, c))
    && (v.sub.Some? <==> Disconnect(c) !in life && !Cut(life, limit, c))
    && (v.sub.Some? ==> v.sub.value.filter == FilterOf(life, c))
  }

  lemma {:induction false} LifeSnoc(acts: seq<Action>, a: Action, c: ConnId)
    ensures Life(acts + [a], c) == if Connect(c) in acts then Life(acts, c) + [a] else []
    decreases |acts|
  {
    if acts == [] {
      assert acts + [a] == [a];
    } else {
      assert (acts + [a])[1..] == acts[1..] + [a];
      assert acts == [acts[0]] + acts[1..];
      if acts[0] != Connect(c) {
        LifeSnoc(acts[1..], a, c);
      }
    }
  }

  lemma {:induction false} OwnRunSnoc(v: View, c: ConnId, acts: seq<Action>, a: Action, limit: nat)
    ensures OwnRun(v, c, acts + [a], limit) == Own(OwnRun(v, c, acts, limit), c, a, limit)
    decreases |acts|
  {
    if acts == [] {
      assert acts + [a] == [a];
      assert OwnRun(v, c, [a], limit) == OwnRun(Own(v, c, a, limit), c, [], limit);
    } else {
      assert (acts + [a])[1..] == acts[1..] + [a];
      OwnRunSnoc(Own(v, c, acts[0], limit), c, acts[1..], a, limit);
    }
  }

  /** The history's own next step. */
  lemma HistorySnoc(life: seq<Action>, a: Action, limit: nat, c: ConnId)
    ensures FilterOf(life + [a], c) == if a.SetFilter? && a.conn == c then a.types else FilterOf(life, c)
    ensures a.FanOut? ==>
      && Cut(life + [a], limit, c) ==
           (Cut(life, limit, c)
            || (Reaches(life, limit, c, a.updateType) && TooMuch(Course(life, limit, c), a.payload, limit)))
      && Course(life + [a], limit, c) == Course(life, limit, c)
           + if Reaches(life, limit, c, a.updateType) && !TooMuch(Course(life, limit, c), a.payload, limit)
             then [Sent(a.payload)] else []
    ensures !a.FanOut? ==>
      && Cut(life + [a], limit, c) == Cut(life, limit, c)
      && Course(life + [a], limit, c) == Course(life, limit, c)
           + if a == Pong(c) && Disconnect(c) !in life && !Cut(life, limit, c) then [Ponged] else []
    ensures forall b :: b in life + [a] <==> b in life || b == a
  {
    assert (life + [a])[..|life|] == life;
  }

  /** Where the counter is exact, it decides as the backlog does. */
  lemma CounterDecides(v: View, p: string, limit: nat)
    requires v.sub.Some? && v.link.Some? && (limit == 0 || (Counted(v, limit) && limit + |p| < WORD))
    ensures TooSlow(v.sub.value, p, limit) <==> TooMuch(v.link.value.traffic, p, limit)
  {
  }

  lemma StepTold(v: View, life: seq<Action>, c: ConnId, a: Action, limit: nat)
    requires v.link.Some? && Told(v, life, limit, c)
    requires limit == 0 || (Counted(v, limit) && Fits([a], limit))
    ensures Own(v, c, a, limit).link.Some? && Told(Own(v, c, a, limit), life + [a], limit, c)
  {
    HistorySnoc(life, a, limit, c);
    if a.FanOut? && v.sub.Some? {
      assert a in [a];
      CounterDecides(v, a.payload, limit);
    }
  }

  lemma {:induction false} RunTold(acts: seq<Action>, limit: nat, c: ConnId)
    requires limit == 0 || Fits(acts, limit)
    ensures var v := OwnRun(View(None, None), c, acts, limit);
      && (v.link.Some? <==> Connect(c) in acts) && (v.sub.Some? ==> v.link.Some?)
      && (v.link.Some? ==> Told(v, Life(acts, c), limit, c))
    decreases |acts|
  {
    if acts != [] {
      var front, a := acts[..|acts| - 1], acts[|acts| - 1];
      assert acts == front + [a];
      RunTold(front, limit, c);
      OwnRunSnoc(View(None, None), c, front, a, limit);
      LifeSnoc(front, a, c);
      if limit > 0 {
        OwnRunKeepsCounted(View(None, None), c, front, limit);
      }
      if Connect(c) in front {
        StepTold(OwnRun(View(None, None), c, front, limit), Life(front, c), c, a, limit);
      }
    }
  }

  /**
   * In every run a peer has received exactly the payloads of the updates that reached it, in order, up to
   * the one that was too much; that one cut the connection. It is registered until it leaves or is cut.
   */
  lemma PeerGetsExactly(acts: seq<Action>, limit: nat, c: ConnId)
    requires limit == 0 || Fits(acts, limit)
    ensures var v := Of(Run(Registry([], map[]), acts, limit), c);
      && (v.link.Some? <==> Connect(c) in acts) && (v.sub.Some? ==> v.link.Some?)
      && (v.link.Some? ==> Told(v, Life(acts, c), limit, c))
  {
    EveryConnectionOnItsOwn(Registry([], map[]), acts, limit, c);
    RunTold(acts, limit, c);
  }

  function Payloads(traffic: seq<Traffic>): seq<string>
    decreases |traffic|
  {
    if traffic == [] then []
    else
      Payloads(traffic[..|traffic| - 1])
      + match traffic[|traffic| - 1]
        case Ponged => []
        case Sent(p) => [p]
  }

  /** The update with this number reached the peer and was not too much. */
  predicate Delivers(life: seq<Action>, limit: nat, c: ConnId, i: nat) {
    && i < |life| && life[i].FanOut?
    && Reaches(life[..i], limit, c, life[i].updateType)
    && !TooMuch(Course(life[..i], limit, c), life[i].payload, limit)
  }

  /** The payload on each place is that of a delivered update; they come in order and none is left out. */
  ghost predicate Lists(from: seq<nat>, payloads: seq<string>, life: seq<Action>, limit: nat, c: ConnId) {
    && |from| == |payloads|
    && (forall k | 0 <= k < |from| :: Delivers(life, limit, c, from[k]) && payloads[k] == life[from[k]].payload)
    && (forall j, k | 0 <= j < k < |from| :: from[j] < from[k])
    && (forall i: nat | Delivers(life, limit, c, i) :: i in from)
  }

  lemma DeliversBefore(life: seq<Action>, a: Action, limit: nat, c: ConnId, i: nat)
    requires i < |life|
    ensures Delivers(life + [a], limit, c, i) == Delivers(life, limit, c, i)
  {
    assert (life + [a])[..i] == life[..i];
  }

  lemma ListsSnoc(from: seq<nat>, payloads: seq<string>, life: seq<Action>, a: Action, limit: nat, c: ConnId)
    requires Lists(from, payloads, life, limit, c)
    ensures Delivers(life + [a], limit, c, |life|) ==>
      Lists(from + [|life|], payloads + [a.payload], life + [a], limit, c)
    ensures !Delivers(life + [a], limit, c, |life|) ==> Lists(from, payloads, life + [a], limit, c)
  {
    forall i: nat | i < |life| ensures Delivers(life + [a], limit, c, i) == Delivers(life, limit, c, i) {
      DeliversBefore(life, a, limit, c, i);
    }
    forall i: nat | Delivers(life + [a], limit, c, i) && i != |life| ensures i in from {
      assert Delivers(life, limit, c, i);
    }
  }

  /** The payloads of the traffic are exactly those of the delivered updates, in order. */
  lemma {:induction false} PayloadsAre(life: seq<Action>, limit: nat, c: ConnId) returns (from: seq<nat>)
    ensures Lists(from, Payloads(Course(life, limit, c)), life, limit, c)
    decreases |life|
  {
    from := [];
    if life != [] {
      var n := |life| - 1;
      var front, a := life[..n], life[n];
      assert life == front + [a];
      from := PayloadsAre(front, limit, c);
      HistorySnoc(front, a, limit, c);
      PayloadsSnoc(Course(front, limit, c));
      ListsSnoc(from, Payloads(Course(front, limit, c)), front, a, limit, c);
      assert life[..n] == front;
      if Delivers(life, limit, c, n) {
        from := from + [n];
      }
    }
  }

  lemma PayloadsSnoc(traffic: seq<Traffic>)
    ensures Payloads(traffic + [Ponged]) == Payloads(traffic)
    ensures forall p :: Payloads(traffic + [Sent(p)]) == Payloads(traffic) + [p]
    ensures Payloads(traffic + []) == Payloads(traffic)
  {
    assert (traffic + [Ponged])[..|traffic|] == traffic;
    assert traffic + [] == traffic;
    forall p ensures Payloads(traffic + [Sent(p)]) == Payloads(traffic) + [p] {
      assert (traffic + [Sent(p)])[..|traffic|] == traffic;
    }
  }

  /** So in every run the peer's payloads are those of the updates that reached it, each once, and in order. */
  lemma PeerPayloads(acts: seq<Action>, limit: nat, c: ConnId)
    requires (limit == 0 || Fits(acts, limit)) && Connect(c) in acts
    ensures var v := Of(Run(Registry([], map[]), acts, limit), c);
      v.link.Some? && exists from :: Lists(from, Payloads(v.link.value.traffic), Life(acts, c), limit, c)
  {
    PeerGetsExactly(acts, limit, c);
    var from := PayloadsAre(Life(acts, c), limit, c);
  }

  /**
   * In every run a fan-out removes and closes a subscriber it hits if and only if the bytes since its last
   * pong and the payload are more than the limit; otherwise the peer gets the payload and stays.
   */
  lemma CutExactly(acts: seq<Action>, limit: nat, c: ConnId, t: string, p: string)
    requires limit == 0 || (Fits(acts, limit) && limit + |p| < WORD)
    requires var r := Run(Registry([], map[]), acts, limit);
      Find(r.subs, c).Some? && Hit(Find(r.subs, c).value, r.links, t)
    ensures var r := Run(Registry([], map[]), acts, limit); var n := Step(r, FanOut(t, p), limit);
      && c in r.links && c in n.links
      && (TooMuch(r.links[c].traffic, p, limit) ==>
           Find(n.subs, c).None? && n.links[c] == r.links[c].(connected := false))
      && (!TooMuch(r.links[c].traffic, p, limit) ==>
           Find(n.subs, c).Some? && n.links[c] == r.links[c].(traffic := r.links[c].traffic + [Sent(p)]))
  {
    var start := Registry([], map[]);
    var r := Run(start, acts, limit);
    EveryConnectionOnItsOwn(start, acts, limit, c);
    FoundIsLinked(r, c);
    if limit > 0 {
      OwnRunKeepsCounted(Of(start, c), c, acts, limit);
    }
    StepIsOwn(r, FanOut(t, p), limit, c);
    CounterDecides(Of(r, c), p, limit);
  }

  // ------------------------------------------------------------------ the passes of the loops

  lemma {:induction false} ChangedAt(subs: seq<Subscriber>, i: nat, c: ConnId, ch: Change)
    requires i <= |subs| && (forall j | 0 <= j < i :: subs[j].conn != c) && (i < |subs| ==> subs[i].conn == c)
    ensures Changed(subs, c, ch) == if i < |subs| then subs[i := Applied(subs[i], ch)] else subs
    ensures Find(subs, c).Some? <==> i < |subs|
    decreases i
  {
    if i > 0 {
      var rest := subs[1..];
      assert forall j | 0 <= j < |rest| :: rest[j] == subs[j + 1];
      ChangedAt(rest, i - 1, c, ch);
      assert i < |subs| ==> [subs[0]] + rest[i - 1 := Applied(subs[i], ch)] == subs[i := Applied(subs[i], ch)];
    }
  }

  /** Every subscriber that is hit, charged; the slow ones are still there. */
  function Charged(subs: seq<Subscriber>, links: map<ConnId, Link>, t: string, p: string): seq<Subscriber> {
    seq(|subs|, i requires 0 <= i < |subs| => if Hit(subs[i], links, t) then Charge(subs[i], p) else subs[i])
  }

  /** Charging everybody and then erasing the slow is the same as Survivors. */
  lemma {:induction false} ErasedIsSurvivors(subs: seq<Subscriber>, cs: set<ConnId>, links: map<ConnId, Link>,
      limit: nat, t: string, p: string)
    requires forall i | 0 <= i < |subs| :: subs[i].conn in cs <==> Hit(subs[i], links, t) && TooSlow(subs[i], p, limit)
    ensures Removed(Charged(subs, links, t, p), cs) == Survivors(subs, links, limit, t, p)
    decreases |subs|
  {
    if subs != [] {
      assert forall i | 0 <= i < |subs| - 1 :: subs[1..][i] == subs[i + 1];
      ErasedIsSurvivors(subs[1..], cs, links, limit, t, p);
      assert Charged(subs, links, t, p)[1..] == Charged(subs[1..], links, t, p);
    }
  }

  /** The connections hit, in order: the slow ones, or the others. */
  function Part(subs: seq<Subscriber>, links: map<ConnId, Link>, limit: nat, t: string, p: string,
      slow: bool): seq<ConnId>
    decreases |subs|
  {
    if subs == [] then []
    else
      var s := subs[|subs| - 1];
      Part(subs[..|subs| - 1], links, limit, t, p, slow)
      + if Hit(s, links, t) && TooSlow(s, p, limit) == slow then [s.conn] else []
  }

  lemma PartSnoc(subs: seq<Subscriber>, s: Subscriber, links: map<ConnId, Link>, limit: nat, t: string, p: string,
      slow: bool)
    ensures Part(subs + [s], links, limit, t, p, slow)
      == Part(subs, links, limit, t, p, slow)
      + if Hit(s, links, t) && TooSlow(s, p, limit) == slow then [s.conn] else []
  {
    assert (subs + [s])[..|subs|] == subs;
  }

  /** The links with the connections in cs closed, and those in ds sent the payload. */
  function Closed(links: map<ConnId, Link>, cs: seq<ConnId>): map<ConnId, Link> {
    map c | c in links :: if c in cs then links[c].(connected := false) else links[c]
  }

  function SentTo(links: map<ConnId, Link>, ds: seq<ConnId>, p: string): map<ConnId, Link> {
    map c | c in links :: if c in ds then links[c].(traffic := links[c].traffic + [Sent(p)]) else links[c]
  }

  lemma ClosedAndSent(r: Registry, alive: seq<ConnId>, slow: seq<ConnId>, limit: nat, t: string, p: string)
    requires Valid(r)
    requires alive == Part(r.subs, r.links, limit, t, p, false) && slow == Part(r.subs, r.links, limit, t, p, true)
    ensures SentTo(Closed(r.links, slow), alive, p) == FanOutAll(r, limit, t, p).links
    ensures forall c | c in alive || c in slow :: c in r.links
    ensures forall i, j | 0 <= i < j < |alive| :: alive[i] != alive[j]
  {
    PartIs(r.subs, r.links, limit, t, p, false);
    PartIs(r.subs, r.links, limit, t, p, true);
    forall c | c in r.links || c in alive || c in slow
      ensures c in r.links && SentTo(Closed(r.links, slow), alive, p)[c]
        == LinkAfter(r.links[c], Find(r.subs, c), r.links, limit, t, p)
    {
      FoundIsLinked(r, c);
    }
  }

  predicate InPart(s: Option<Subscriber>, links: map<ConnId, Link>, limit: nat, t: string, p: string, slow: bool) {
    s.Some? && Hit(s.value, links, t) && TooSlow(s.value, p, limit) == slow
  }

  lemma {:induction false} PartIs(subs: seq<Subscriber>, links: map<ConnId, Link>, limit: nat, t: string, p: string,
      slow: bool)
    requires Distinct(subs)
    ensures forall c :: c in Part(subs, links, limit, t, p, slow) <==> InPart(Find(subs, c), links, limit, t, p, slow)
    ensures forall i, j | 0 <= i < j < |Part(subs, links, limit, t, p, slow)| ::
      Part(subs, links, limit, t, p, slow)[i] != Part(subs, links, limit, t, p, slow)[j]
    decreases |subs|
  {
    if subs != [] {
      var front, s := subs[..|subs| - 1], subs[|subs| - 1];
      assert subs == front + [s];
      PartIs(front, links, limit, t, p, slow);
      NotFound(front, s.conn);
      assert s.conn !in Part(front, links, limit, t, p, slow);
      forall c ensures c in Part(subs, links, limit, t, p, slow) <==> InPart(Find(subs, c), links, limit, t, p, slow) {
        FindAppend(front, s, c);
        assert InPart(Find(front, c), links, limit, t, p, slow) ==> Find(front, c).Some?;
        FindKeepsConn(front, c);
      }
    }
  }

  lemma {:induction false} FindKeepsConn(subs: seq<Subscriber>, c: ConnId)
    ensures Find(subs, c).Some? ==> Find(subs, c).value.conn == c
    decreases |subs|
  {
    if subs != [] {
      FindKeepsConn(subs[1..], c);
    }
  }

  // ------------------------------------------------------------------ the registry, in place

  class WsSubscriberRegistry {
    const maxPendingBytes: nat
    var connections: seq<Subscriber>
    var links: map<ConnId, Link>  // the peers, outside the registry

    function Now(): Registry
      reads this
    {
      Registry(connections, links)
    }

    constructor (limit: nat)
      ensures maxPendingBytes == limit && Now() == Registry([], map[])
    {
      maxPendingBytes := limit;
      connections, links := [], map[];
    }

    method Join(c: ConnId)
      requires c !in links
      modifies this
      ensures Now() == Step(old(Now()), Connect(c), maxPendingBytes)
      ensures connections == old(connections) + [Subscriber(c, 0, {})]
    {
      connections := connections + [Subscriber(c, 0, {})];
      links := links[c := Link(true, [])];
    }

    static lemma RemovedNext(subs: seq<Subscriber>, cs: set<ConnId>, kept: seq<Subscriber>, i: nat)
      requires i < |subs|
      ensures kept + Removed(subs[i..], cs)
        == (if subs[i].conn in cs then kept else kept + [subs[i]]) + Removed(subs[i + 1..], cs)
    {
      assert subs[i..][1..] == subs[i + 1..];
    }

    /** erase-remove: the subscribers in cs go, the others keep their order. */
    method Erase(cs: set<ConnId>)
      modifies this`connections
      ensures connections == Removed(old(connections), cs)
    {
      var kept: seq<Subscriber> := [];
      var i := 0;
      while i < |connections|
        invariant i <= |connections| && connections == old(connections)
        invariant Removed(connections, cs) == kept + Removed(connections[i..], cs)
      {
        RemovedNext(connections, cs, kept, i);
        if connections[i].conn !in cs {
          kept := kept + [connections[i]];
        }
        i := i + 1;
      }
      assert connections[i..] == [];
      connections := kept;
    }

    /** The first subscriber of c, which the loops of notePong and setFilter look for. */
    method ChangeFirst(c: ConnId, ch: Change) returns (found: bool)
      modifies this`connections
      ensures connections == Changed(old(connections), c, ch)
      ensures found <==> Find(old(connections), c).Some?
    {
      var i := 0;
      while i < |connections|
        invariant i <= |connections| && connections == old(connections)
        invariant forall j | 0 <= j < i :: connections[j].conn != c
      {
        if connections[i].conn == c {
          ChangedAt(connections, i, c, ch);
          connections := connections[i := Applied(connections[i], ch)];
          return true;
        }
        i := i + 1;
      }
      ChangedAt(connections, i, c, ch);
      found := false;
    }

    method Disconnected(c: ConnId)
      modifies this`connections
      ensures Now() == Step(old(Now()), Disconnect(c), maxPendingBytes)
    {
      Erase({c});
    }

    method ChangeFilter(c: ConnId, types: set<string>)
      modifies this`connections
      ensures Now() == Step(old(Now()), SetFilter(c, types), maxPendingBytes)
    {
      var found := ChangeFirst(c, NewFilter(types));
    }

    method NotePong(c: ConnId)
      requires Valid(Now())
      modifies this
      ensures Now() == Step(old(Now()), Pong(c), maxPendingBytes)
    {
      FoundIsLinked(Now(), c);
      NothingToChange(connections, c, Reset);
      var found := ChangeFirst(c, Reset);
      if found {
        links := links[c := links[c].(traffic := links[c].traffic + [Ponged])];
      }
    }

    /** The loop of fanOut under the mutex: the hit are charged and sorted. */
    method ChargeHit(t: string, p: string) returns (alive: seq<ConnId>, slow: seq<ConnId>)
      modifies this`connections
      ensures connections == Charged(old(connections), links, t, p)
      ensures alive == Part(old(connections), links, maxPendingBytes, t, p, false)
      ensures slow == Part(old(connections), links, maxPendingBytes, t, p, true)
    {
      alive, slow := [], [];
      ghost var start := connections;
      var i := 0;
      while i < |connections|
        invariant i <= |connections| == |start|
        invariant forall j | 0 <= j < i :: connections[j] == Charged(start, links, t, p)[j]
        invariant forall j | i <= j < |start| :: connections[j] == start[j]
        invariant alive == Part(start[..i], links, maxPendingBytes, t, p, false)
        invariant slow == Part(start[..i], links, maxPendingBytes, t, p, true)
      {
        var s := connections[i];
        assert start[..i + 1] == start[..i] + [s];
        PartSnoc(start[..i], s, links, maxPendingBytes, t, p, false);
        PartSnoc(start[..i], s, links, maxPendingBytes, t, p, true);
        if Hit(s, links, t) {
          connections := connections[i := Charge(s, p)];
          if TooSlow(s, p, maxPendingBytes) {
            slow := slow + [s.conn];
          } else {
            alive := alive + [s.conn];
          }
        }
        i := i + 1;
      }
      assert start[..i] == start;
    }

    method CloseAll(slow: seq<ConnId>)
      requires forall c | c in slow :: c in links
      modifies this`links
      ensures links == Closed(old(links), slow)
    {
      var i := 0;
      while i < |slow|
        invariant i <= |slow|
        invariant links == Closed(old(links), slow[..i])
      {
        assert slow[..i + 1] == slow[..i] + [slow[i]];
        links := links[slow[i] := links[slow[i]].(connected := false)];
        i := i + 1;
      }
      assert slow[..i] == slow;
    }

    method SendAll(alive: seq<ConnId>, p: string)
      requires forall c | c in alive :: c in links
      requires forall i, j | 0 <= i < j < |alive| :: alive[i] != alive[j]
      modifies this`links
      ensures links == SentTo(old(links), alive, p)
    {
      var i := 0;
      while i < |alive|
        invariant i <= |alive|
        invariant links == SentTo(old(links), alive[..i], p)
      {
        assert alive[..i + 1] == alive[..i] + [alive[i]] && alive[i] !in alive[..i];
        links := links[alive[i] := links[alive[i]].(traffic := links[alive[i]].traffic + [Sent(p)])];
        i := i + 1;
      }
      assert alive[..i] == alive;
    }

    method FanOutUpdate(t: string, p: string)
      requires Valid(Now())
      modifies this
      ensures Now() == Step(old(Now()), FanOut(t, p), maxPendingBytes)
    {
      ghost var r := Now();
      var alive, slow := ChargeHit(t, p);
      ClosedAndSent(r, alive, slow, maxPendingBytes, t, p);
      var gone := set c | c in slow;
      GoneAreSlow(r, gone, slow, maxPendingBytes, t, p);
      Erase(gone);
      CloseAll(slow);
      SendAll(alive, p);
    }
  }

  lemma GoneAreSlow(r: Registry, gone: set<ConnId>, slow: seq<ConnId>, limit: nat, t: string, p: string)
    requires Valid(r) && slow == Part(r.subs, r.links, limit, t, p, true) && gone == set c | c in slow
    ensures Removed(Charged(r.subs, r.links, t, p), gone) == Survivors(r.subs, r.links, limit, t, p)
  {
    PartIs(r.subs, r.links, limit, t, p, true);
    forall i | 0 <= i < |r.subs|
      ensures r.subs[i].conn in gone <==> Hit(r.subs[i], r.links, t) && TooSlow(r.subs[i], p, limit)
    {
      FindsMember(r.subs, i);
    }
    ErasedIsSurvivors(r.subs, gone, r.links, limit, t, p);
  }

  lemma {:induction false} NothingToChange(subs: seq<Subscriber>, c: ConnId, ch: Change)
    ensures Find(subs, c).None? ==> Changed(subs, c, ch) == subs
    decreases |subs|
  {
    if subs != [] {
      NothingToChange(subs[1..], c, ch);
    }
  }
}
